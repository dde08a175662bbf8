/** The growing array of slkc/include/slkc/array.h and slkc/src/slkc/array.c: a header in
    front of its items, doubled when a push finds it full. */
module GrowingArrays {
  import opened Alignment

  // ----- what a run of operations does

  datatype Op<T> = Push(item: T) | Pop | Clear

  /** The items, the room for them, and how many items growing has moved so far. */
  datatype Store<T> = Store(items: seq<T>, capacity: nat, moved: nat)

  /** One operation. A full store doubles once; the whole old capacity is moved. */
  function Step<T>(s: Store<T>, op: Op<T>): Store<T> {
    match op
    case Push(x) =>
      if |s.items| >= s.capacity then Store(s.items + [x], 2 * s.capacity, s.moved + s.capacity)
      else s.(items := s.items + [x])
    case Pop => if s.items == [] then s else s.(items := s.items[..|s.items| - 1])
    case Clear => s.(items := [])
  }

  function Run<T>(s: Store<T>, ops: seq<Op<T>>): Store<T> {
    if ops == [] then s else Step(Run(s, ops[..|ops| - 1]), ops[|ops| - 1])
  }

  /** The same operations on a plain sequence. */
  function Plain<T>(ops: seq<Op<T>>): seq<T> {
    if ops == [] then []
    else
      var before := Plain(ops[..|ops| - 1]);
      match ops[|ops| - 1]
      case Push(x) => before + [x]
      case Pop => if before == [] then [] else before[..|before| - 1]
      case Clear => []
  }

  function Pushes<T>(ops: seq<Op<T>>): nat {
    if ops == [] then 0 else Pushes(ops[..|ops| - 1]) + if ops[|ops| - 1].Push? then 1 else 0
  }

  /** Any run from an empty store with room for `c >= 1` items agrees with a plain
      sequence, stays within its capacity, and has moved exactly as many items as it has
      gained room for: fewer than two for every push. */
  lemma {:induction false} RunIsPlain<T>(c: nat, ops: seq<Op<T>>)
    requires c >= 1
    ensures var s := Run(Store([], c, 0), ops);
            && s.items == Plain(ops) && |s.items| <= s.capacity
            && s.moved == s.capacity - c
            && (s.moved == 0 || s.moved < 2 * Pushes(ops))
            && |s.items| <= Pushes(ops) && (s.capacity == c || s.capacity < 2 * Pushes(ops))
  {
    if ops != [] {
      RunIsPlain(c, ops[..|ops| - 1]);
    }
  }

  /** The greatest length the sequence has had. */
  function Peak<T>(ops: seq<Op<T>>): nat {
    if ops == [] then 0
    else
      var before, now := Peak(ops[..|ops| - 1]), |Plain(ops)|;
      if before < now then now else before
  }

  /** The capacity, exactly: the first one doubled as often as it takes to hold the greatest
      length, and not once more. It never shrinks. */
  lemma {:induction false} CapacityExactly<T>(c: nat, ops: seq<Op<T>>) returns (k: nat)
    requires c >= 1
    ensures var s := Run(Store([], c, 0), ops);
            && s.capacity == c * Pow2(k) && Peak(ops) <= s.capacity
            && (k > 0 ==> c * Pow2(k - 1) < Peak(ops))
  {
    if ops == [] {
      k := 0;
    } else {
      var before := ops[..|ops| - 1];
      k := CapacityExactly(c, before);
      RunIsPlain(c, before);
      RunIsPlain(c, ops);
      hide Plain, Pow2;
      var s := Run(Store([], c, 0), before);
      if ops[|ops| - 1].Push? && |s.items| >= s.capacity {
        Doubling(c, k);
        k := k + 1;
      }
    }
  }

  lemma Doubling(c: nat, k: nat)
    ensures c * Pow2(k + 1) == 2 * (c * Pow2(k))
  {
  }

  /** With no room at the start there never is any: the capacity holds the items of every
      run exactly when it is not zero at first. */
  lemma RoomExactly<T>(c: nat, x: T)
    ensures (forall ops: seq<Op<T>> :: var s := Run(Store([], c, 0), ops); |s.items| <= s.capacity) <==> c >= 1
  {
    if c >= 1 {
      forall ops: seq<Op<T>> ensures var s := Run(Store([], c, 0), ops); |s.items| <= s.capacity {
        RunIsPlain(c, ops);
      }
    } else {
      var ops := [Push(x)];
      assert ops[..0] == [];
      assert Run(Store([], c, 0), ops) == Step(Store([], c, 0), Push(x));
    }
  }

  /** One push into an array without room: two times nothing is nothing. */
  lemma PushWithoutRoom<T>(x: T)
    ensures Run(Store([], 0, 0), [Push(x)]) == Store([x], 0, 0)
  {
    assert [Push(x)][..0] == [];
    assert Run(Store([], 0, 0), [Push(x)]) == Step(Run(Store([], 0, 0), []), Push(x));
  }

  // ----- the array itself

  class GrowingArray<T(0)> {
    var itemLength: nat
    var realLength: nat
    var itemCapacity: nat
    var realCapacity: nat
    const itemSize: nat
    var items: array<T>
    ghost var moved: nat

    /** The byte counts are the item counts times the item size, and the block has room for
        the capacity. */
    ghost predicate Valid()
      reads this
    {
      && itemSize > 0 && items.Length == itemCapacity && itemLength <= itemCapacity
      && realLength == itemLength * itemSize && realCapacity == itemCapacity * itemSize
    }

    ghost function Contents(): Store<T>
      requires Valid()
      reads this, items
    {
      Store(items[..itemLength], itemCapacity, moved)
    }

    /** `sk_array`. */
    constructor (capacity: nat, itemSize: nat)
      requires itemSize > 0
      ensures Valid() && fresh(items) && Contents() == Store([], capacity, 0)
    {
      this.itemSize := itemSize;
      itemLength := 0;
      realLength := 0;
      itemCapacity := capacity;
      realCapacity := capacity * itemSize;
      items := new T[capacity];
      moved := 0;
    }

    /** `sk_array_push`. An item that does not fit even after doubling is not stored: the
        original writes it behind its block. */
    method PushItem(x: T) returns (stored: bool)
      requires Valid()
      modifies this, items
      ensures items == old(items) || fresh(items)
      ensures stored <==> old(itemCapacity) > 0
      ensures Valid() && Contents() == if stored then Step(old(Contents()), Push(x)) else old(Contents())
    {
      if itemLength >= itemCapacity {
        Grow();
      }
      if itemLength >= itemCapacity {
        return false;
      }
      items[itemLength] := x;
      realLength := realLength + itemSize;
      itemLength := itemLength + 1;
      return true;
    }

    /** The new block of twice the capacity, the move, and the new header. */
    method Grow()
      requires Valid()
      modifies this
      ensures Valid() && fresh(items) && itemLength == old(itemLength)
      ensures itemCapacity == 2 * old(itemCapacity) && moved == old(moved) + old(itemCapacity)
      ensures items[..itemLength] == old(items[..itemLength])
    {
      var block := new T[2 * itemCapacity];
      forall i | 0 <= i < itemCapacity {
        block[i] := items[i];
      }
      moved := moved + itemCapacity;
      items := block;
      itemCapacity := 2 * itemCapacity;
      realCapacity := 2 * realCapacity;
    }

    /** `sk_array_pop`, which looks at the byte count. */
    method PopItem()
      requires Valid()
      modifies this
      ensures Valid() && items == old(items) && Contents() == Step(old(Contents()), Pop)
    {
      if realLength > 0 {
        realLength := realLength - itemSize;
        itemLength := itemLength - 1;
      }
    }

    /** `sk_array_clear`. */
    method ClearItems()
      requires Valid()
      modifies this
      ensures Valid() && items == old(items) && Contents() == Step(old(Contents()), Clear)
    {
      if realLength > 0 {
        realLength := 0;
        itemLength := 0;
      }
    }
  }

  // ----- where the items lie

  /** `sk_alloc_array`: the first item's address for a block at `p`. */
  function ItemsAt(w: nat, p: nat, header: nat, alignment: nat): nat {
    AlignForward(w, p + header, alignment)
  }

  /** The block is asked for as many bytes as header and items have together. That is
      enough, for an aligned block, exactly when the header's size is a multiple of the
      alignment. The header always has room in front of the items. */
  lemma {:induction false} ItemsFitExactly(w: nat, p: nat, header: nat, capacity: nat, alignment: nat)
    requires PowerOfTwo(alignment) && alignment < Pow2(w) && p + header + alignment - 1 < Pow2(w)
    requires alignment != 0 && IsAligned(p, alignment)
    ensures p <= ItemsAt(w, p, header, alignment) - header && IsAligned(ItemsAt(w, p, header, alignment), alignment)
    ensures ItemsAt(w, p, header, alignment) + capacity <= p + (header + capacity) <==> IsAligned(header, alignment)
  {
    MaskIsArithmetic(w, p + header, alignment);
    hide AlignForward, PowerOfTwo, Pow2;
    SumAligned(p, header, alignment);
  }

  /** A header of 72 bytes, as with 64-bit pointers and 32-bit sizes, and alignment 16: the
      items of the block at 0 begin at 80 and reach 8 bytes behind it. */
  lemma HeaderTooShort(capacity: nat)
    ensures ItemsAt(8, 0, 72, 16) == 80 && ItemsAt(8, 0, 72, 16) + capacity == (72 + capacity) + 8
  {
    Sixteen();
    hide AlignForward, Pow2, PowerOfTwo;
    AlignForwardBounds(8, 72, 16);
    MaskIsMultiple(8, 72, 16);
  }

  lemma Sixteen()
    ensures PowerOfTwo(16) && Pow2(8) == 256
  {
    assert Pow2(4) == 16;
  }

  lemma SumAligned(p: nat, n: nat, a: nat)
    requires a != 0 && IsAligned(p, a)
    ensures IsAligned(p + n, a) <==> IsAligned(n, a)
  {
    var q := p / a;
    var i, r := n / a, n % a;
    assert p == q * a && n == i * a + r;
    assert p + n == (q + i) * a + r;
    Divides(p + n, q + i, r, a);
  }
}
