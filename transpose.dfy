/**
 Three ways to transpose a matrix into a second matrix of swapped shape (a
 plain double loop, 32-by-32 tiles, and recursive splitting into quadrants
 down to 16-by-16 blocks), and the check that one matrix is the transpose of
 another.
 */
module Transpose {
  import opened Matrices

  const BlockHeight := 32
  const BlockWidth := 32
  const MaxYBlockSize := 16
  const MaxXBlockSize := 16

  function Min(a: int, b: int): (m: int)
    ensures m <= a && m <= b && (m == a || m == b)
  {
    if b < a then b else a
  }

  /** `t` has as many rows as `a` has columns and as many columns as `a` has rows. */
  predicate ShapesSwapped(a: Matrix2D, t: Matrix2D)
  {
    a.ySize == t.xSize && a.xSize == t.ySize
  }

  /** Element (x, y) of `t` is element (y, x) of `a`, for every cell of `a`. */
  ghost predicate IsTransposeOf(a: Matrix2D, t: Matrix2D)
    requires a.Valid() && t.Valid()
    reads a.data, t.data
  {
    ShapesSwapped(a, t) &&
    forall y, x | 0 <= y < a.ySize && 0 <= x < a.xSize :: t.At(x, y) == a.At(y, x)
  }

  /** Source and destination of a transpose: valid, swapped shapes, separate stores. */
  ghost predicate Compatible(a: Matrix2D, out: Matrix2D)
  {
    a.Valid() && out.Valid() && ShapesSwapped(a, out) && a.data != out.data
  }

  /**
   Copies a[y][x] to out[x][y] for the cells yFrom <= y < yTo, xFrom <= x < xTo
   of `a`, row by row; every other element of `out` keeps its value. An empty
   range (yFrom >= yTo or xFrom >= xTo) writes nothing.
   */
  method TransposeRange(a: Matrix2D, out: Matrix2D, yFrom: int, yTo: int, xFrom: int, xTo: int)
    requires Compatible(a, out)
    requires 0 <= yFrom && yTo <= a.ySize && 0 <= xFrom && xTo <= a.xSize
    modifies out.data
    ensures forall y, x | 0 <= y < a.ySize && 0 <= x < a.xSize ::
      out.At(x, y) == if yFrom <= y < yTo && xFrom <= x < xTo then a.At(y, x) else old(out.At(x, y))
  {
    var y := yFrom;
    while y < yTo
      invariant yFrom <= y && (y <= yTo || y == yFrom)
      invariant forall y', x' | 0 <= y' < a.ySize && 0 <= x' < a.xSize ::
        out.At(x', y') == if yFrom <= y' < y && xFrom <= x' < xTo then a.At(y', x') else old(out.At(x', y'))
    {
      var x := xFrom;
      while x < xTo
        invariant xFrom <= x && (x <= xTo || x == xFrom)
        invariant forall y', x' | 0 <= y' < a.ySize && 0 <= x' < a.xSize ::
          out.At(x', y') ==
            if (yFrom <= y' < y && xFrom <= x' < xTo) || (y' == y && xFrom <= x' < x)
            then a.At(y', x') else old(out.At(x', y'))
      {
        out.SetAt(x, y, a.At(y, x));
        x := x + 1;
      }
      y := y + 1;
    }
  }

  /** The plain double loop over every cell of `a`. */
  method TransposeSimple(a: Matrix2D, out: Matrix2D) returns (ok: bool)
    requires a.Valid() && out.Valid() && a.data != out.data
    modifies out.data
    ensures ok <==> ShapesSwapped(a, out)
    ensures ok ==> IsTransposeOf(a, out)
    ensures !ok ==> unchanged(out.data)
  {
    if a.ySize != out.xSize || a.xSize != out.ySize {
      return false;
    }
    TransposeRange(a, out, 0, a.ySize, 0, a.xSize);
    return true;
  }

  /**
   Tiles of BlockHeight-by-BlockWidth cells in row-major tile order; the tiles
   on the bottom and right edges are clipped to the matrix.
   */
  method TransposeBlocking(a: Matrix2D, out: Matrix2D) returns (ok: bool)
    requires a.Valid() && out.Valid() && a.data != out.data
    modifies out.data
    ensures ok <==> ShapesSwapped(a, out)
    ensures ok ==> IsTransposeOf(a, out)
    ensures !ok ==> unchanged(out.data)
  {
    if a.ySize != out.xSize || a.xSize != out.ySize {
      return false;
    }
    var blockYStart := 0;
    while blockYStart < a.ySize
      invariant 0 <= blockYStart && blockYStart % BlockHeight == 0
      invariant forall y, x | 0 <= y < a.ySize && 0 <= x < a.xSize ::
        out.At(x, y) == if y < blockYStart then a.At(y, x) else old(out.At(x, y))
    {
      var blockXStart := 0;
      while blockXStart < a.xSize
        invariant 0 <= blockXStart && blockXStart % BlockWidth == 0
        invariant forall y, x | 0 <= y < a.ySize && 0 <= x < a.xSize ::
          out.At(x, y) ==
            if y < blockYStart || (y < blockYStart + BlockHeight && x < blockXStart)
            then a.At(y, x) else old(out.At(x, y))
      {
        var ySize := Min(a.ySize, blockYStart + BlockHeight);
        var xSize := Min(a.xSize, blockXStart + BlockWidth);
        // The clipped range is exactly the cells of a in this tile.
        assert forall y, x | 0 <= y < a.ySize && 0 <= x < a.xSize ::
          (blockYStart <= y < ySize && blockXStart <= x < xSize) <==>
          InTile(blockYStart / BlockHeight, blockXStart / BlockWidth, y, x);
        TransposeRange(a, out, blockYStart, ySize, blockXStart, xSize);
        blockXStart := blockXStart + BlockWidth;
      }
      blockYStart := blockYStart + BlockHeight;
    }
    return true;
  }

  /** The tile with top-left corner (BlockHeight * i, BlockWidth * j) contains cell (y, x). */
  predicate InTile(i: int, j: int, y: int, x: int)
  {
    BlockHeight * i <= y < BlockHeight * i + BlockHeight &&
    BlockWidth * j <= x < BlockWidth * j + BlockWidth
  }

  /** Each cell lies in exactly one tile: the one numbered (y / BlockHeight, x / BlockWidth). */
  lemma TileOfCell(i: int, j: int, y: nat, x: nat)
    ensures InTile(i, j, y, x) <==> (i == y / BlockHeight && j == x / BlockWidth)
  {
  }

  /** A rectangular region of the source: rows yStart.., columns xStart... */
  datatype Block = Block(yStart: nat, xStart: nat, height: nat, width: nat)
  {
    predicate Contains(y: int, x: int)
    {
      yStart <= y < yStart + height && xStart <= x < xStart + width
    }

    function Size(): nat
    {
      height + width
    }

    function Area(): nat
    {
      height * width
    }

    predicate IsBase()
    {
      height <= MaxYBlockSize && width <= MaxXBlockSize
    }
  }

  /**
   The four children of a block, top-left, top-right, bottom-left and
   bottom-right: the first half of each side is size / 2, the second half
   the rest, size - size / 2.
   */
  function Quadrants(b: Block): (q: seq<Block>)
    ensures |q| == 4
  {
    var h, w := b.height / 2, b.width / 2;
    [ Block(b.yStart, b.xStart, h, w),
      Block(b.yStart, b.xStart + w, h, b.width - w),
      Block(b.yStart + h, b.xStart, b.height - h, w),
      Block(b.yStart + h, b.xStart + w, b.height - h, b.width - w) ]
  }

  /** The quadrants tile their parent: a cell is in the parent iff it is in some quadrant. */
  lemma QuadrantsCover(b: Block)
    ensures forall y, x :: b.Contains(y, x) <==> exists i | 0 <= i < 4 :: Quadrants(b)[i].Contains(y, x)
  {
    var q := Quadrants(b);
    forall y, x ensures b.Contains(y, x) <==> exists i | 0 <= i < 4 :: q[i].Contains(y, x) {
      if b.Contains(y, x) {
        var i := (if y < b.yStart + b.height / 2 then 0 else 2) + (if x < b.xStart + b.width / 2 then 0 else 1);
        assert q[i].Contains(y, x);
      }
    }
  }

  /** No cell is in two quadrants. */
  lemma QuadrantsDisjoint(b: Block)
    ensures forall i, j, y, x | 0 <= i < j < 4 :: !(Quadrants(b)[i].Contains(y, x) && Quadrants(b)[j].Contains(y, x))
  {
  }

  /** The areas of the quadrants add up to the area of the parent. */
  lemma QuadrantsArea(b: Block)
    ensures Quadrants(b)[0].Area() + Quadrants(b)[1].Area() + Quadrants(b)[2].Area() + Quadrants(b)[3].Area() == b.Area()
  {
  }

  /** Outside the base case, every quadrant has a strictly smaller height + width. */
  lemma QuadrantsShrink(b: Block)
    requires !b.IsBase()
    ensures forall i | 0 <= i < 4 :: Quadrants(b)[i].Size() < b.Size()
  {
  }

  /**
   Transposes the cells of block `b` that lie inside `a`: base blocks are
   copied directly, clipped to the matrix; larger blocks are split into
   quadrants, recursively. Every other element of `out` keeps its value.
   */
  method TransposeCacheObliviousImpl(a: Matrix2D, out: Matrix2D, b: Block)
    requires Compatible(a, out)
    modifies out.data
    ensures forall y, x | 0 <= y < a.ySize && 0 <= x < a.xSize ::
      out.At(x, y) == if b.Contains(y, x) then a.At(y, x) else old(out.At(x, y))
    decreases b.Size()
  {
    if b.IsBase() {
      var ySize := Min(a.ySize, b.yStart + b.height);
      var xSize := Min(a.xSize, b.xStart + b.width);
      TransposeRange(a, out, b.yStart, ySize, b.xStart, xSize);
    } else {
      var q := Quadrants(b);
      QuadrantsShrink(b);
      QuadrantsCover(b);
      TransposeCacheObliviousImpl(a, out, q[0]);
      TransposeCacheObliviousImpl(a, out, q[1]);
      TransposeCacheObliviousImpl(a, out, q[2]);
      TransposeCacheObliviousImpl(a, out, q[3]);
    }
  }

  /** Recursive quadrant splitting over the whole of `a`. */
  method TransposeCacheOblivious(a: Matrix2D, out: Matrix2D) returns (ok: bool)
    requires a.Valid() && out.Valid() && a.data != out.data
    modifies out.data
    ensures ok <==> ShapesSwapped(a, out)
    ensures ok ==> IsTransposeOf(a, out)
    ensures !ok ==> unchanged(out.data)
  {
    if a.ySize != out.xSize || a.xSize != out.ySize {
      return false;
    }
    TransposeCacheObliviousImpl(a, out, Block(0, 0, a.ySize, a.xSize));
    return true;
  }

  /** Decides IsTransposeOf, stopping at the first mismatch. */
  method IsTranspose(a: Matrix2D, t: Matrix2D) returns (r: bool)
    requires a.Valid() && t.Valid()
    ensures r == IsTransposeOf(a, t)
  {
    if a.ySize != t.xSize || a.xSize != t.ySize {
      return false;
    }
    var y := 0;
    while y < a.ySize
      invariant 0 <= y <= a.ySize
      invariant forall y', x' | 0 <= y' < y && 0 <= x' < a.xSize :: t.At(x', y') == a.At(y', x')
    {
      var x := 0;
      while x < a.xSize
        invariant 0 <= x <= a.xSize
        invariant forall y', x' | 0 <= y' < y && 0 <= x' < a.xSize :: t.At(x', y') == a.At(y', x')
        invariant forall x' | 0 <= x' < x :: t.At(x', y) == a.At(y, x')
      {
        if a.At(y, x) != t.At(x, y) {
          return false;
        }
        x := x + 1;
      }
      y := y + 1;
    }
    return true;
  }

  /** A matrix has one transpose: two transposes of `a` have the same store. */
  lemma TransposeUnique(a: Matrix2D, t1: Matrix2D, t2: Matrix2D)
    requires a.Valid() && t1.Valid() && t2.Valid()
    requires IsTransposeOf(a, t1) && IsTransposeOf(a, t2)
    ensures t1.ySize == t2.ySize && t1.xSize == t2.xSize
    ensures t1.data[..] == t2.data[..]
  {
    forall k | 0 <= k < t1.data.Length ensures t1.data[k] == t2.data[k] {
      CellOfOffset(k, t1.ySize, t1.xSize);
      var x, y := k / t1.xSize, k % t1.xSize;
      assert t1.At(x, y) == a.At(y, x) == t2.At(x, y);
    }
  }

  /** Being a transpose is symmetric. */
  lemma TransposeSymmetric(a: Matrix2D, t: Matrix2D)
    requires a.Valid() && t.Valid()
    requires IsTransposeOf(a, t)
    ensures IsTransposeOf(t, a)
  {
  }

  /** The transpose of a transpose of `a` has the shape and the store of `a`. */
  lemma DoubleTranspose(a: Matrix2D, t: Matrix2D, u: Matrix2D)
    requires a.Valid() && t.Valid() && u.Valid()
    requires IsTransposeOf(a, t) && IsTransposeOf(t, u)
    ensures u.ySize == a.ySize && u.xSize == a.xSize
    ensures u.data[..] == a.data[..]
  {
    forall k | 0 <= k < a.data.Length ensures u.data[k] == a.data[k] {
      CellOfOffset(k, a.ySize, a.xSize);
      var y, x := k / a.xSize, k % a.xSize;
      assert u.At(y, x) == t.At(x, y) == a.At(y, x);
    }
  }

  /**
   The 2-by-3 matrix [[1, 2, 3], [4, 5, 6]] transposed by each of the three
   algorithms: every result is [[1, 4], [2, 5], [3, 6]] and passes IsTranspose.
   */
  method TwoByThreeExample() returns (simple: seq<int>, blocking: seq<int>, oblivious: seq<int>, valid: bool)
    ensures simple == blocking == oblivious == [1, 4, 2, 5, 3, 6]
    ensures valid
  {
    var a := new Matrix2D.FromData(2, 3, [1, 2, 3, 4, 5, 6]);
    var expected := new Matrix2D.FromData(3, 2, [1, 4, 2, 5, 3, 6]);
    assert IsTransposeOf(a, expected) by {
      forall y, x | 0 <= y < 2 && 0 <= x < 3 ensures expected.At(x, y) == a.At(y, x) {
        assert a.data[..][Offset(y, x, 3)] == expected.data[..][Offset(x, y, 2)];
      }
    }
    var out1 := new Matrix2D(3, 2);
    var ok1 := TransposeSimple(a, out1);
    TransposeUnique(a, out1, expected);
    var out2 := new Matrix2D(3, 2);
    var ok2 := TransposeBlocking(a, out2);
    TransposeUnique(a, out2, expected);
    var out3 := new Matrix2D(3, 2);
    var ok3 := TransposeCacheOblivious(a, out3);
    TransposeUnique(a, out3, expected);
    simple, blocking, oblivious := out1.data[..], out2.data[..], out3.data[..];
    valid := IsTranspose(a, out1);
  }
}
