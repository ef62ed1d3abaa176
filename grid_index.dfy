/**
 * Index arithmetic shared by the tile partitioner and the mask stitcher:
 * the step-based offset enumeration (numpy's `arange(0, n, step)`), the
 * clipped extent of a tile, the row-major field-of-view number of a grid
 * cell and its inverse, and row-major flattening of a grid.
 */
module GridIndex {

  /** `arange(start, n, step)`: start, start + step, ... while below n. */
  function OffsetsFrom(start: nat, n: nat, step: nat): seq<nat>
    requires step > 0
    decreases n - start
  {
    if start >= n then [] else [start] + OffsetsFrom(start + step, n, step)
  }

  /** The tile start offsets along one axis of length n. */
  function Offsets(n: nat, step: nat): seq<nat>
    requires step > 0
  {
    OffsetsFrom(0, n, step)
  }

  /** Rounded-up division, the reference for the number of tiles along an axis. */
  function CeilDiv(n: nat, d: nat): nat
    requires d > 0
  {
    (n + d - 1) / d
  }

  /**
   * The end (exclusive) of the region a tile starting at x covers on an axis
   * of length n: the raster edge when fewer than `step` pixels remain,
   * otherwise a full stride.
   */
  function Extent(x: nat, n: nat, step: nat): (e: nat)
    ensures e == n || e == x + step
    ensures e <= x + step
    ensures x <= n ==> e <= n
    ensures x < n && step > 0 ==> x < e
  {
    if n - x < step then n else x + step
  }

  /**
   * Row-major number of the grid cell (i, j) in a grid with `cols` columns:
   * the cells of the i rows above it, then j cells of its own row.
   */
  function Fov(i: nat, j: nat, cols: nat): nat
  {
    if i == 0 then j else cols + Fov(i - 1, j, cols)
  }

  /** Concatenation of the rows of a grid, top row first. */
  function Flatten<X>(g: seq<seq<X>>): seq<X>
  {
    if g == [] then [] else g[0] + Flatten(g[1..])
  }

  /**
   * s cut into consecutive pieces of n entries (numpy's reshape of a flat
   * buffer along its leading axis); a shorter remainder becomes a last piece.
   */
  function Chunks<X>(s: seq<X>, n: nat): seq<seq<X>>
    requires n > 0
    decreases |s|
  {
    if |s| == 0 then [] else if |s| < n then [s] else [s[..n]] + Chunks(s[n..], n)
  }

  /** Every row of g has exactly n entries. */
  ghost predicate Uniform<X>(g: seq<seq<X>>, n: nat)
  {
    forall i :: 0 <= i < |g| ==> |g[i]| == n
  }

  // ---------------------------------------------------------------------
  // Arithmetic helpers

  lemma MulMono(a: nat, b: nat, d: nat)
    requires a <= b
    ensures a * d <= b * d
  {
    assert b * d == a * d + (b - a) * d;
  }

  /** Euclidean division is determined by any quotient/remainder pair. */
  lemma DivModUnique(n: int, d: int, q: int, r: int)
    requires d > 0 && 0 <= r < d && n == q * d + r
    ensures n / d == q && n % d == r
  {
    var q0, r0 := n / d, n % d;
    assert n == q0 * d + r0 && 0 <= r0 < d;
    if q0 < q {
      var k: nat := q - q0;
      MulMono(1, k, d);
      assert false;
    } else if q0 > q {
      var k: nat := q0 - q;
      MulMono(1, k, d);
      assert false;
    }
  }

  /** A position inside block i of n blocks of size d lies below n * d. */
  lemma BlockBound(i: nat, r: nat, n: nat, d: nat)
    requires i < n && r < d
    ensures i * d + r < n * d
  {
    MulMono(i + 1, n, d);
  }

  /** The block and the offset within the block of a position below n * d. */
  lemma BlockOf(p: nat, n: nat, d: nat)
    requires d > 0 && p < n * d
    ensures p / d < n && p % d < d && (p / d) * d + p % d == p
  {
    if p / d >= n {
      MulMono(n, p / d, d);
      assert false;
    }
  }

  // ---------------------------------------------------------------------
  // Offsets and extents

  /** The offsets start at `start` and advance by `step`. */
  lemma {:induction false} OffsetsFromAt(start: nat, n: nat, step: nat)
    requires step > 0
    ensures forall k :: 0 <= k < |OffsetsFrom(start, n, step)| ==>
              OffsetsFrom(start, n, step)[k] == start + k * step
    decreases n - start
  {
    if start < n {
      OffsetsFromAt(start + step, n, step);
      var s := OffsetsFrom(start, n, step);
      forall k | 0 <= k < |s| ensures s[k] == start + k * step {
        if k > 0 {
          assert s[k] == OffsetsFrom(start + step, n, step)[k - 1];
          assert (k - 1) * step + step == k * step;
        }
      }
    }
  }

  /** Every offset lies in [start, n). */
  lemma {:induction false} OffsetsFromBelow(start: nat, n: nat, step: nat)
    requires step > 0
    ensures forall k :: 0 <= k < |OffsetsFrom(start, n, step)| ==>
              start <= OffsetsFrom(start, n, step)[k] < n
    decreases n - start
  {
    if start < n {
      OffsetsFromBelow(start + step, n, step);
    }
  }

  /**
   * The enumeration stops at the first multiple of `step` (counted from
   * `start`) that reaches n: the count c is the least one with
   * start + c * step >= n.
   */
  lemma {:induction false} OffsetsFromCount(start: nat, n: nat, step: nat)
    requires step > 0
    ensures var c := |OffsetsFrom(start, n, step)|;
            start + c * step >= n && (c == 0 || start + (c - 1) * step < n)
    ensures start >= n <==> |OffsetsFrom(start, n, step)| == 0
    decreases n - start
  {
    if start < n {
      OffsetsFromCount(start + step, n, step);
      var c := |OffsetsFrom(start, n, step)|;
      assert c == 1 + |OffsetsFrom(start + step, n, step)|;
      assert start + step + (c - 1) * step == start + c * step;
      if c > 1 {
        assert start + step + (c - 2) * step == start + (c - 1) * step;
      }
    }
  }

  /**
   * The number of offsets along an axis of length n is ceil(n / step), and
   * the k-th offset is k * step.
   */
  lemma OffsetsShape(n: nat, step: nat)
    requires step > 0
    ensures |Offsets(n, step)| == CeilDiv(n, step)
    ensures forall k :: 0 <= k < |Offsets(n, step)| ==>
              Offsets(n, step)[k] == k * step && Offsets(n, step)[k] < n
  {
    OffsetsFromAt(0, n, step);
    OffsetsFromBelow(0, n, step);
    OffsetsFromCount(0, n, step);
    var c := |Offsets(n, step)|;
    if c == 0 {
      DivModUnique(n + step - 1, step, 0, step - 1);
    } else {
      DivModUnique(n + step - 1, step, c, n + step - 1 - c * step);
    }
  }

  /** An axis that is an exact multiple of the step gets no extra, empty tile. */
  lemma ExactMultipleOffsets(k: nat, step: nat)
    requires step > 0
    ensures |Offsets(k * step, step)| == k
  {
    OffsetsShape(k * step, step);
    DivModUnique(k * step + step - 1, step, k, step - 1);
  }

  /**
   * The covered extent is the stride clipped to the axis: it lies strictly
   * after x, never past n, spans at most one stride, and equals
   * min(n, x + step).
   */
  lemma ExtentIsClip(x: nat, n: nat, step: nat)
    requires x < n && step > 0
    ensures var e := Extent(x, n, step);
            x < e <= n && e - x <= step &&
            e == (if x + step <= n then x + step else n)
  {
  }

  /**
   * Every tile of an axis but the last covers a full stride; the last one
   * ends exactly at the raster edge.
   */
  lemma ExtentsAlongAxis(n: nat, step: nat, k: nat)
    requires step > 0 && k < |Offsets(n, step)|
    ensures k + 1 < |Offsets(n, step)| ==>
              Extent(Offsets(n, step)[k], n, step) == Offsets(n, step)[k] + step
    ensures k + 1 == |Offsets(n, step)| ==> Extent(Offsets(n, step)[k], n, step) == n
  {
    OffsetsFromAt(0, n, step);
    OffsetsFromCount(0, n, step);
    var c := |Offsets(n, step)|;
    assert Offsets(n, step)[k] == k * step;
    if k + 1 < c {
      MulMono(k + 2, c, step);
      MulMono(k + 1, c - 1, step);
      assert (k + 1) * step == k * step + step;
    } else {
      assert c * step == k * step + step;
    }
  }

  // ---------------------------------------------------------------------
  // Row-major numbering

  /** The row-major number in closed form. */
  lemma {:induction false} FovClosed(i: nat, j: nat, cols: nat)
    ensures Fov(i, j, cols) == i * cols + j
  {
    if i > 0 {
      FovClosed(i - 1, j, cols);
      assert (i - 1) * cols + cols == i * cols;
    }
  }

  /** Moving d cells right within a row adds d to the number. */
  lemma {:induction false} FovShift(i: nat, j: nat, d: nat, cols: nat)
    ensures Fov(i, j + d, cols) == Fov(i, j, cols) + d
  {
    if i > 0 {
      FovShift(i - 1, j, d, cols);
    }
  }

  /** Numbering a cell and decoding the number gives the cell back. */
  lemma FovBijection(i: nat, j: nat, rows: nat, cols: nat)
    requires i < rows && j < cols
    ensures Fov(i, j, cols) < rows * cols
    ensures Fov(i, j, cols) / cols == i && Fov(i, j, cols) % cols == j
  {
    FovClosed(i, j, cols);
    BlockBound(i, j, rows, cols);
    DivModUnique(i * cols + j, cols, i, j);
  }

  /** Every number below rows * cols is the number of exactly one cell. */
  lemma FovInverse(f: nat, rows: nat, cols: nat)
    requires f < rows * cols
    ensures cols > 0 && f / cols < rows && f % cols < cols
    ensures Fov(f / cols, f % cols, cols) == f
  {
    if cols == 0 {
      assert false;
    }
    BlockOf(f, rows, cols);
    FovClosed(f / cols, f % cols, cols);
  }

  /** Distinct cells get distinct numbers. */
  lemma FovInjective(i: nat, j: nat, i': nat, j': nat, rows: nat, cols: nat)
    requires i < rows && j < cols && i' < rows && j' < cols
    requires Fov(i, j, cols) == Fov(i', j', cols)
    ensures i == i' && j == j'
  {
    FovBijection(i, j, rows, cols);
    FovBijection(i', j', rows, cols);
  }

  // ---------------------------------------------------------------------
  // Flattening

  lemma {:induction false} FlattenLength<X>(g: seq<seq<X>>, n: nat)
    requires Uniform(g, n)
    ensures |Flatten(g)| == |g| * n
  {
    if g != [] {
      FlattenLength(g[1..], n);
      assert (|g| - 1) * n + n == |g| * n;
    }
  }

  /** Entry (i, j) of a uniform grid sits at position Fov(i, j, n) of its flattening. */
  lemma {:induction false} FlattenAt<X>(g: seq<seq<X>>, n: nat, i: nat, j: nat)
    requires Uniform(g, n) && i < |g| && j < n
    ensures Fov(i, j, n) < |Flatten(g)| && Flatten(g)[Fov(i, j, n)] == g[i][j]
  {
    assert Flatten(g) == g[0] + Flatten(g[1..]);
    assert |g[0]| == n;
    if i > 0 {
      var rest := g[1..];
      assert Uniform(rest, n);
      FlattenAt(rest, n, i - 1, j);
      assert rest[i - 1] == g[i];
    }
  }

  /** Flattening distributes over appending a row. */
  lemma {:induction false} FlattenAppend<X>(g: seq<seq<X>>, row: seq<X>)
    ensures Flatten(g + [row]) == Flatten(g) + row
  {
    if g == [] {
      assert [row][1..] == [];
    } else {
      assert (g + [row])[1..] == g[1..] + [row];
      FlattenAppend(g[1..], row);
    }
  }

  /** The grid has k rows when the sequence length is Fov(k, 0, n), i.e. k * n. */
  lemma {:induction false} ChunksShape<X>(s: seq<X>, n: nat, k: nat)
    requires n > 0 && |s| == Fov(k, 0, n)
    ensures |Chunks(s, n)| == k && Uniform(Chunks(s, n), n)
  {
    if k > 0 {
      ChunksShape(s[n..], n, k - 1);
    }
  }

  /** Chunking loses nothing: the pieces concatenate back to s. */
  lemma {:induction false} FlattenChunks<X>(s: seq<X>, n: nat)
    requires n > 0
    ensures Flatten(Chunks(s, n)) == s
    decreases |s|
  {
    if |s| >= n {
      FlattenChunks(s[n..], n);
      assert s[..n] + s[n..] == s;
    }
  }

  /** Chunking the flattening of a uniform grid gives the grid back. */
  lemma {:induction false} ChunksFlatten<X>(g: seq<seq<X>>, n: nat)
    requires n > 0 && Uniform(g, n)
    ensures Chunks(Flatten(g), n) == g
  {
    if g != [] {
      var s := Flatten(g);
      assert s == g[0] + Flatten(g[1..]);
      assert Uniform(g[1..], n);
      ChunksFlatten(g[1..], n);
      assert s[..n] == g[0] && s[n..] == Flatten(g[1..]);
      assert g == [g[0]] + g[1..];
    }
  }
}
