# Matrix transpose, modelled and verified in Dafny

A model of a small C++ benchmark that transposes a dense row-major integer
matrix in three ways. The model has two modules:

- `Matrices` (matrix2d.dfy) holds the class `Matrix2D`: a ySize-by-xSize grid
  whose element (y, x) sits at offset `y * xSize + x` of an `array<int>`.
  It also holds the offset arithmetic: in range, one-to-one, and every offset
  belongs to some cell. `ySize`, `xSize` and `data` are `const` fields.
  Reading `m.ySize` and `m.xSize` plays the role of `GetYSize()` and
  `GetXSize()`, and nothing can change them after construction. The const
  `At(y, x)` is the function `At`. The mutable `At(y, x)`, which is only ever
  assigned through, is the method `SetAt(y, x, v)`.
  The size check `SizeMatches` (length equals ySize * xSize) is the
  invariant `Valid()` of every matrix and the precondition of `FromData`.
  `FromDataUnchecked` is the data constructor as the source builds, with no
  check at all.
- `Transpose` (transpose.dfy) holds the three algorithms:
  - `TransposeSimple`: one double loop.
  - `TransposeBlocking`: 32-by-32 tiles, with the edge tiles clipped by `Min`.
  - `TransposeCacheOblivious` / `TransposeCacheObliviousImpl`: recursive
    splitting into four quadrants, down to 16-by-16 blocks.

  It also holds the checker `IsTranspose` and the specification predicate
  `IsTransposeOf`. The predicate says that the shapes are swapped and that
  `t.At(x, y) == a.At(y, x)` for every cell of `a`.

Each transpose returns `false` and leaves the destination untouched when the
shapes are not swapped. Otherwise it returns `true` and makes the destination
the transpose of the source.

`TransposeCacheObliviousImpl` has a precise contract. For a `Block` (start row,
start column, height, width), it writes `out[x][y] := a[y][x]` for exactly the
cells of the block that lie inside `a`, and leaves every other element alone.
The recursion terminates on `height + width`.

The lemmas about `Quadrants` show that the four children tile their parent:
they cover it, they do not overlap, and their areas add up. This holds for odd
sizes too, because the second half of a side is `size - size / 2`.

`TransposeUnique` shows that two transposes of one matrix have equal stores,
so the three algorithms produce identical output.

The source loops over the cells the same way in three places: the body of
`Transpose_Simple`, each tile of `Transpose_Blocking`, and the base case of
`Transpose_CacheObliviousImpl`. That loop is written once, as
`TransposeRange`, and all three algorithms call it.

## Model

| member | source | states |
|---|---|---|
| `Matrices.Offset` | MatrixTranspose/matrix2d.h:51-54 | the address y * xSize + x that both `At` overloads index; its properties are OffsetInRange, OffsetInjective, OffsetDecodes and CellOfOffset |
| `Matrices.OffsetDecodes` | MatrixTranspose/matrix2d.h:51-54 | for 0 <= x < xSize the offset of (y, x) divided by xSize gives y and its remainder gives x |
| `Matrices.OffsetInRange` | MatrixTranspose/matrix2d.h:51-54 | for 0 <= y < ySize and 0 <= x < xSize the offset y * xSize + x lies in [0, ySize * xSize) |
| `Matrices.OffsetInjective` | MatrixTranspose/matrix2d.h:51 | two cells with columns in range have the same offset iff they are the same cell |
| `Matrices.CellOfOffset` | MatrixTranspose/matrix2d.h:51 | every offset k of a ySize * xSize store is the offset of the in-range cell (k / xSize, k % xSize) |
| `Matrices.SizeMatchesExactlyCovers` | MatrixTranspose/matrix2d.h:45-48 | a store has length ySize * xSize iff every in-range cell's offset is inside it and every element of it is some cell's offset |
| `Matrices.Matrix2D.FromDataUnchecked` | MatrixTranspose/matrix2d.h:45-48 | the data constructor as it builds, with its size assertion compiled out: any store is accepted and held as given |
| `Matrices.UncheckedAcceptsShortStore` | MatrixTranspose/matrix2d.h:45-48 | the unchecked constructor builds a 1x1 matrix over an empty store, which is not valid: cell (0, 0) lies outside the store |
| `Matrices.Matrix2D.constructor` | MatrixTranspose/matrix2d.h:38-42 | a fresh store of length exactly ySize * xSize, with every element 0; the sizes are the arguments and are const from then on |
| `Matrices.Matrix2D.FromData` | MatrixTranspose/matrix2d.h:45-48 | requires the length to be ySize * xSize; the store holds exactly the given values, and the sizes are the arguments |
| `Matrices.Matrix2D.At` | MatrixTranspose/matrix2d.h:54 | the const `At`: reads element Offset(y, x) of the store, which OffsetInRange puts inside it; SetAt's contract shows it returns what the mutable `At` last stored, and as a function it changes nothing |
| `Matrices.Matrix2D.SetAt` | MatrixTranspose/matrix2d.h:51 | after the write, At(y, x) is the new value; every other element and every other cell keeps its value |
| `Transpose.Min` | MatrixTranspose/main.cpp:41-42 | `std::min`: the result is at most both arguments and equal to one of them (also used at main.cpp:61-62) |
| `Transpose.TransposeRange` | MatrixTranspose/main.cpp:18-22 | for the cells of a inside [yFrom, yTo) x [xFrom, xTo), out[x][y] becomes a[y][x]; every other cell of out is unchanged; an empty range writes nothing (the same loop is at main.cpp:43-47 and 63-67) |
| `Transpose.TransposeSimple` | MatrixTranspose/main.cpp:14-25 | returns true iff the shapes are swapped; on true, out is the transpose of a; on false, out is unchanged; a is never written |
| `Transpose.TransposeBlocking` | MatrixTranspose/main.cpp:28-52 | same contract as TransposeSimple; the clipped tile bounds stay inside a, and the tile loops together cover every cell |
| `Transpose.TileOfCell` | MatrixTranspose/main.cpp:36-44 | a cell lies in the 32x32 tile numbered (i, j) iff i == y / 32 and j == x / 32, so every cell is in exactly one tile; TransposeBlocking asserts that each range it writes is exactly one such tile, clipped to the matrix |
| `Transpose.Quadrants` | MatrixTranspose/main.cpp:70-83 | the four child blocks of a block, with first halves size / 2 and second halves size - size / 2 |
| `Transpose.QuadrantsCover` | MatrixTranspose/main.cpp:70-83 | a cell is in the parent block iff it is in one of the four quadrants |
| `Transpose.QuadrantsDisjoint` | MatrixTranspose/main.cpp:70-83 | no cell is in two different quadrants |
| `Transpose.QuadrantsArea` | MatrixTranspose/main.cpp:70-83 | the quadrants' areas add up to the parent's area, for odd sizes too |
| `Transpose.QuadrantsShrink` | MatrixTranspose/main.cpp:60-83 | outside the 16x16 base case, every quadrant has a strictly smaller height + width |
| `Transpose.TransposeCacheObliviousImpl` | MatrixTranspose/main.cpp:55-85 | for the cells of a inside the block, out[x][y] becomes a[y][x]; every other cell of out is unchanged; the recursion terminates |
| `Transpose.TransposeCacheOblivious` | MatrixTranspose/main.cpp:88-95 | same contract as TransposeSimple, by running the recursion on the block (0, 0, ySize, xSize) |
| `Transpose.IsTranspose` | MatrixTranspose/main.cpp:100-111 | the result is true iff the shapes are swapped and t[x][y] == a[y][x] for every cell of a |
| `Transpose.TransposeUnique` | MatrixTranspose/main.cpp:100-111 | two transposes of the same matrix have the same shape and equal stores, so the three algorithms agree element by element |
| `Transpose.TransposeSymmetric` | MatrixTranspose/main.cpp:100-111 | if t is the transpose of a, then a is the transpose of t |
| `Transpose.DoubleTranspose` | MatrixTranspose/main.cpp:100-111 | a transpose of a transpose of a has the shape and the store of a |
| `Transpose.TwoByThreeExample` | MatrixTranspose/main.cpp:149-157 | each algorithm turns [[1,2,3],[4,5,6]] into [[1,4],[2,5],[3,6]], and IsTranspose accepts the result |

## Findings

| source | as written | input that shows it | evidently intended | confidence | as-written member | corrected member |
|---|---|---|---|---|---|---|
| MatrixTranspose/matrix2d.h:47 | `assert(m_data.size() = ySize * xSize)` assigns where it means to compare. size() returns a value, so with assertions enabled the line does not compile; it builds only when NDEBUG removes the assert, and then the data constructor accepts a store of any length. | a 1x1 matrix built over an empty store: the constructor accepts it, and its only cell (0, 0) lies outside the store | `m_data.size() == ySize * xSize`, checked | high (not executed) | `Matrices.UncheckedAcceptsShortStore` | `Matrices.SizeMatchesExactlyCovers` |

## Left out

- Random data (randomGenerator.h): the data constructor takes any `seq<int>` of the right length instead.
- Benchmarking, timing, printing and `main` (`PerformBenchmark`, `PERFORM_BENCHMARK`, `Print`): these are timing and console output only. The timer header is not part of this model. `TwoByThreeExample` stands in for a small fixed run.
- Cache behaviour and performance: only the functional result and the index sets each call touches are modelled.
- 32-bit `int`: sizes and indices are mathematical integers, so overflow of `ySize * xSize` is not modelled. Negative sizes are excluded by the `nat` type. In the source, a negative product ySize * xSize makes `resize` fail. Sizes that are negative but multiply to a non-negative product (such as -2 by -3, or 0 by -5) build a matrix with negative getters, which the `nat` model cannot represent.
- `Matrices.Matrix2D.FromData`: the vector moved in becomes a copy into a fresh array, so the store is never shared with the caller.
- `Transpose.TransposeSimple`, `Transpose.TransposeBlocking`, `Transpose.TransposeCacheOblivious`: they require source and destination to have separate stores. The source always transposes into a second matrix. Transposing a square matrix into itself is not modelled.
- Out-of-range element access is undefined in the source. Here it is ruled out by the preconditions of `At` and `SetAt`, which every caller meets.
