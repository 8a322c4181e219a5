/**
 A dense, row-major matrix of integers with a fixed shape, and the offset
 arithmetic it rests on: cell (y, x) of a matrix with xSize columns lives at
 offset y * xSize + x of its backing store.
 */
module Matrices {

  /** Linear offset of cell (y, x) in a row-major store with `xSize` columns. */
  function Offset(y: int, x: int, xSize: int): int
  {
    y * xSize + x
  }

  lemma MulMonotone(a: int, b: int, c: int)
    requires a <= b && 0 <= c
    ensures a * c <= b * c
  {
  }

  /** Every in-range cell has an offset inside the store. */
  lemma OffsetInRange(y: int, x: int, ySize: int, xSize: int)
    requires 0 <= y < ySize && 0 <= x < xSize
    ensures 0 <= Offset(y, x, xSize) < ySize * xSize
  {
    MulMonotone(0, y, xSize);
    MulMonotone(y + 1, ySize, xSize);
  }

  /** Distinct in-range cells have distinct offsets. */
  lemma OffsetInjective(y1: int, x1: int, y2: int, x2: int, xSize: int)
    requires 0 <= y1 && 0 <= y2
    requires 0 <= x1 < xSize && 0 <= x2 < xSize
    ensures Offset(y1, x1, xSize) == Offset(y2, x2, xSize) <==> y1 == y2 && x1 == x2
  {
    if y1 < y2 {
      MulMonotone(y1 + 1, y2, xSize);
    } else if y2 < y1 {
      MulMonotone(y2 + 1, y1, xSize);
    }
  }

  /** An offset decodes back to its cell: row by division, column by remainder. */
  lemma OffsetDecodes(y: int, x: int, xSize: int)
    requires 0 <= x < xSize
    ensures Offset(y, x, xSize) / xSize == y && Offset(y, x, xSize) % xSize == x
  {
    var k := Offset(y, x, xSize);
    var q, r := k / xSize, k % xSize;
    assert (y - q) * xSize == r - x;
    if y - q >= 1 {
      MulMonotone(1, y - q, xSize);
    } else if y - q <= -1 {
      MulMonotone(y - q, -1, xSize);
    }
  }

  /** Every offset of the store belongs to exactly the cell (k / xSize, k % xSize). */
  lemma CellOfOffset(k: int, ySize: int, xSize: int)
    requires 0 <= ySize && 0 <= k < ySize * xSize
    ensures 0 < xSize
    ensures 0 <= k / xSize < ySize && 0 <= k % xSize < xSize
    ensures Offset(k / xSize, k % xSize, xSize) == k
  {
    if xSize <= 0 {
      MulMonotone(xSize, 0, ySize);
      assert false;
    }
    if k / xSize >= ySize {
      MulMonotone(ySize, k / xSize, xSize);
    }
  }

  /** Offset k belongs to some in-range cell of a ySize-by-xSize matrix. */
  ghost predicate IsCellOffset(k: int, ySize: int, xSize: int)
  {
    exists y, x | 0 <= y < ySize && 0 <= x < xSize :: Offset(y, x, xSize) == k
  }

  /** A store of `dataSize` elements fits a ySize-by-xSize matrix. */
  predicate SizeMatches(dataSize: int, ySize: int, xSize: int)
  {
    dataSize == ySize * xSize
  }

  /**
   SizeMatches holds exactly when the offsets of the in-range cells are the
   offsets of the store: no cell falls outside it and no element is left over.
   */
  lemma SizeMatchesExactlyCovers(n: nat, ySize: nat, xSize: nat)
    ensures SizeMatches(n, ySize, xSize) <==>
      (forall y, x | 0 <= y < ySize && 0 <= x < xSize :: Offset(y, x, xSize) < n) &&
      (forall k | 0 <= k < n :: IsCellOffset(k, ySize, xSize))
  {
    if SizeMatches(n, ySize, xSize) {
      forall y, x | 0 <= y < ySize && 0 <= x < xSize ensures Offset(y, x, xSize) < n {
        OffsetInRange(y, x, ySize, xSize);
      }
      forall k | 0 <= k < n ensures IsCellOffset(k, ySize, xSize) {
        CellOfOffset(k, ySize, xSize);
      }
    } else if n < ySize * xSize {
      // The store is too short: the last cell lies outside it.
      CellOfOffset(ySize * xSize - 1, ySize, xSize);
      assert Offset(ySize - 1, xSize - 1, xSize) == ySize * xSize - 1;
    } else {
      // The store is too long: element ySize * xSize belongs to no cell.
      var k := ySize * xSize;
      forall y, x | 0 <= y < ySize && 0 <= x < xSize ensures Offset(y, x, xSize) != k {
        OffsetInRange(y, x, ySize, xSize);
      }
      assert !IsCellOffset(k, ySize, xSize);
    }
  }

  /** A ySize-by-xSize grid of integers stored row-major in `data`. */
  class Matrix2D {
    const ySize: nat
    const xSize: nat
    const data: array<int>

    ghost predicate Valid()
    {
      SizeMatches(data.Length, ySize, xSize)
    }

    /** A zero-filled matrix of the given shape. */
    constructor (ySize: nat, xSize: nat)
      ensures this.ySize == ySize && this.xSize == xSize
      ensures Valid() && fresh(data)
      ensures forall y, x | 0 <= y < ySize && 0 <= x < xSize :: At(y, x) == 0
    {
      var store := new int[ySize * xSize];
      for i := 0 to store.Length
        invariant forall k | 0 <= k < i :: store[k] == 0
      {
        store[i] := 0;
      }
      this.ySize, this.xSize, data := ySize, xSize, store;
      new;
      forall y, x | 0 <= y < ySize && 0 <= x < xSize ensures At(y, x) == 0 {
        OffsetInRange(y, x, ySize, xSize);
      }
    }

    /**
     The data constructor as it builds: its size assertion compiles only when
     NDEBUG removes it (as written it assigns to size() instead of comparing),
     so a store of any length is accepted.
     */
    constructor FromDataUnchecked(ySize: nat, xSize: nat, values: seq<int>)
      ensures this.ySize == ySize && this.xSize == xSize
      ensures fresh(data) && data[..] == values
    {
      this.ySize, this.xSize := ySize, xSize;
      data := new int[|values|](i requires 0 <= i < |values| => values[i]);
    }

    /** A matrix whose row-major store holds `values`. */
    constructor FromData(ySize: nat, xSize: nat, values: seq<int>)
      requires SizeMatches(|values|, ySize, xSize)
      ensures this.ySize == ySize && this.xSize == xSize
      ensures Valid() && fresh(data)
      ensures data[..] == values
    {
      this.ySize, this.xSize := ySize, xSize;
      data := new int[|values|](i requires 0 <= i < |values| => values[i]);
    }

    /** The element at row y, column x. */
    function At(y: int, x: int): int
      requires Valid()
      requires 0 <= y < ySize && 0 <= x < xSize
      reads data
    {
      OffsetInRange(y, x, ySize, xSize);
      data[Offset(y, x, xSize)]
    }

    /** Stores v at row y, column x; every other element keeps its value. */
    method SetAt(y: int, x: int, v: int)
      requires Valid()
      requires 0 <= y < ySize && 0 <= x < xSize
      modifies data
      ensures At(y, x) == v
      ensures forall k | 0 <= k < data.Length && k != Offset(y, x, xSize) :: data[k] == old(data[k])
      ensures forall y', x' | 0 <= y' < ySize && 0 <= x' < xSize && (y' != y || x' != x) ::
        At(y', x') == old(At(y', x'))
    {
      OffsetInRange(y, x, ySize, xSize);
      data[Offset(y, x, xSize)] := v;
      forall y', x' | 0 <= y' < ySize && 0 <= x' < xSize && (y' != y || x' != x)
        ensures At(y', x') == old(At(y', x'))
      {
        OffsetInjective(y', x', y, x, xSize);
        OffsetInRange(y', x', ySize, xSize);
      }
    }
  }

  /**
   The unchecked data constructor builds a 1-by-1 matrix over an empty store:
   the matrix is not valid, since its only cell (0, 0) lies outside the store.
   */
  method UncheckedAcceptsShortStore() returns (m: Matrix2D)
    ensures m.ySize == 1 && m.xSize == 1 && m.data.Length == 0
    ensures !m.Valid() && !(Offset(0, 0, m.xSize) < m.data.Length)
  {
    m := new Matrix2D.FromDataUnchecked(1, 1, []);
  }
}
