/** The capacity-doubling growable arrays of the GPU utility code. The C source
    repeats one implementation for `int`, `float`, `void *` and `DistantLight`
    elements (and the two- and three-element inserts for `int` and `float`);
    here it is one generic class instantiated at each element type. */
module OptixArrays {

  class DynArray<T(0)> {
    /** The heap block, `size` slots long; its first `count` slots are in use. */
    var data: array<T>
    var count: nat
    var size: nat

    ghost predicate Valid()
      reads this
    {
      count <= size && data.Length == size
    }

    /** The elements inserted so far, in order. */
    ghost function Contents(): seq<T>
      reads this, data
      requires Valid()
    {
      data[..count]
    }

    /** initArray*: an empty array with room for `initialSize` elements. */
    constructor (initialSize: nat)
      ensures Valid() && fresh(data)
      ensures count == 0 && size == initialSize && Contents() == []
    {
      data := new T[initialSize];
      count := 0;
      size := initialSize;
    }

    /** `a->size *= 2` followed by `realloc`: a block twice as long whose first
        `size` slots are the old block's. */
    method Grow()
      requires Valid()
      modifies this
      ensures Valid() && fresh(data)
      ensures size == 2 * old(size) && count == old(count)
      ensures data[..old(size)] == old(data[..])
    {
      var block := new T[2 * size];
      var i := 0;
      while i < size
        invariant 0 <= i <= size
        invariant forall j :: 0 <= j < i ==> block[j] == data[j]
        modifies block
      {
        block[i] := data[i];
        i := i + 1;
      }
      assert block[..size] == data[..];
      data := block;
      size := 2 * size;
    }

    /** insertArray{i,f,p,dl}: appends `element`, doubling the capacity exactly when
        the array is full, and returns the element. Doubling an empty block gives no
        room, so C needs a non-zero size. */
    method Insert(element: T) returns (r: T)
      requires Valid() && size > 0
      modifies this, data
      ensures Valid() && r == element
      ensures Contents() == old(Contents()) + [element]
      ensures count == old(count) + 1
      ensures size == if old(count) == old(size) then 2 * old(size) else old(size)
      ensures old(count) < old(size) ==> data == old(data)
      ensures data == old(data) || fresh(data)
    {
      if count == size {
        Grow();
      }
      data[count] := element;
      count := count + 1;
      r := element;
    }

    /** insertArray2{i,f}: appends `x` then `y` and returns `y`, doubling the capacity
        once when fewer than two slots remain. C writes past the block unless that
        one doubling makes room, which the precondition states. */
    method Insert2(x: T, y: T) returns (r: T)
      requires Valid() && Fits2(count, size)
      modifies this, data
      ensures Valid() && r == y
      ensures Contents() == old(Contents()) + [x, y]
      ensures count == old(count) + 2
      ensures size == if old(count) + 1 >= old(size) then 2 * old(size) else old(size)
      ensures data == old(data) || fresh(data)
    {
      if count + 1 >= size {
        Grow();
      }
      data[count] := x;
      count := count + 1;
      data[count] := y;
      count := count + 1;
      r := y;
    }

    /** insertArray3{i,f}: appends `x`, `y`, `z` and returns `z`, doubling the
        capacity once when fewer than three slots remain. */
    method Insert3(x: T, y: T, z: T) returns (r: T)
      requires Valid() && Fits3(count, size)
      modifies this, data
      ensures Valid() && r == z
      ensures Contents() == old(Contents()) + [x, y, z]
      ensures count == old(count) + 3
      ensures size == if old(count) + 2 >= old(size) then 2 * old(size) else old(size)
      ensures data == old(data) || fresh(data)
    {
      if count + 2 >= size {
        Grow();
      }
      data[count] := x;
      count := count + 1;
      data[count] := y;
      count := count + 1;
      data[count] := z;
      count := count + 1;
      r := z;
    }
  }

  /** After the at most one doubling of insertArray2*, two more elements fit. */
  predicate Fits2(count: nat, size: nat)
  {
    count + 1 >= size ==> count + 2 <= 2 * size
  }

  /** After the at most one doubling of insertArray3*, three more elements fit. */
  predicate Fits3(count: nat, size: nat)
  {
    count + 2 >= size ==> count + 3 <= 2 * size
  }

  /** One doubling is always enough once the capacity is at least two (three for
      the three-element insert); with a smaller capacity and a full array it is not. */
  lemma OneDoublingSuffices(count: nat, size: nat)
    requires count <= size
    ensures size >= 2 ==> Fits2(count, size)
    ensures size >= 3 ==> Fits3(count, size)
    ensures count == size && size < 2 ==> !Fits2(count, size)
    ensures count == size && size < 3 ==> !Fits3(count, size)
  {
  }

  /** The element types of the C copies. `DistantLight` is a record whose layout
      is declared in a header this model does not have, so it stays abstract. */
  type IntArray = DynArray<int>
  type FloatArray = DynArray<real>

  /** A `void *` element: an address, with 0 for NULL. */
  type Pointer = nat
  type PointerArray = DynArray<Pointer>

  type DistantLight(0)
  type DistantLightArray = DynArray<DistantLight>
}
