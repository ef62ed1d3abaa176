/**
 * The mask stitcher of final_viewer_main.py (get_boundaries): the source id
 * is taken from the boundary file's stem, the grid shape the partitioner
 * recorded for that source is looked up, the flat mask buffer is reshaped
 * into rows * cols square tiles, every tile is binarised, the tiles of a
 * grid row are concatenated left to right into a strip, the strips top to
 * bottom, and the result becomes an RGBA image whose alpha is 255 * mask.
 */
module Stitching {
  import opened GridIndex
  import opened Wrappers
  import opened Tiling

  /** The mask tile edge get_boundaries hard-codes. */
  const MASK_TILE: Pos := 2048

  // ---------------------------------------------------------------------
  // Source id

  /**
   * `stem.split('-')[-1]`: the part of the stem after its last '-', the
   * whole stem when it has none, and empty when the stem ends in '-'.
   */
  function SourceId(stem: string): (id: string)
    ensures '-' !in id
    ensures |id| <= |stem| && stem[|stem| - |id|..] == id
    ensures |id| == |stem| || stem[|stem| - |id| - 1] == '-'
    decreases |stem|
  {
    if |stem| == 0 then ""
    else if stem[|stem| - 1] == '-' then ""
    else SourceId(stem[..|stem| - 1]) + [stem[|stem| - 1]]
  }

  /** Splitting at the last '-' of `prefix + "-" + id` gives id back. */
  lemma {:induction false} SourceIdAfterDash(prefix: string, id: string)
    requires '-' !in id
    ensures SourceId(prefix + "-" + id) == id
    decreases |id|
  {
    var stem := prefix + "-" + id;
    if |id| == 0 {
      assert stem[|stem| - 1] == '-';
    } else {
      var id' := id[..|id| - 1];
      assert stem[..|stem| - 1] == prefix + "-" + id';
      assert stem[|stem| - 1] == id[|id| - 1];
      SourceIdAfterDash(prefix, id');
      assert id == id' + [id[|id| - 1]];
    }
  }

  /** Whatever precedes a part holding a '-' does not change the source id. */
  lemma SourceIdOfDashedTail(prefix: string, stem: string)
    requires '-' in stem
    ensures SourceId(prefix + stem) == SourceId(stem)
  {
    var id := SourceId(stem);
    assert stem[|stem| - |id|..] == id;
    assert |id| != |stem|;
    var head := stem[..|stem| - |id| - 1];
    assert stem == head + "-" + id;
    assert prefix + stem == (prefix + head) + "-" + id;
    SourceIdAfterDash(prefix + head, id);
  }

  /** A stem without '-' is its own source id. */
  lemma {:induction false} SourceIdNoDash(stem: string)
    requires '-' !in stem
    ensures SourceId(stem) == stem
    decreases |stem|
  {
    if |stem| > 0 {
      var init := stem[..|stem| - 1];
      assert stem[|stem| - 1] in stem;
      assert forall x :: x in init ==> x in stem;
      SourceIdNoDash(init);
      assert stem == init + [stem[|stem| - 1]];
    }
  }

  // ---------------------------------------------------------------------
  // Reshape

  /** Every tile of a is T x T. */
  ghost predicate AllSquare(a: seq<Tile>, T: nat)
  {
    forall k :: 0 <= k < |a| ==> Square(a[k], T)
  }

  /** The pieces of a buffer of n * T * T values: n chunks, each cut into T rows of T. */
  lemma ChunkTiles(flat: seq<int>, n: nat, T: Pos)
    requires |flat| == n * (T * T)
    ensures |Chunks(flat, T * T)| == n
    ensures forall k :: 0 <= k < n ==> Square(Chunks(Chunks(flat, T * T)[k], T), T)
  {
    FovClosed(n, 0, T * T);
    ChunksShape(flat, T * T, n);
    FovClosed(T, 0, T);
    forall k | 0 <= k < n
      ensures Square(Chunks(Chunks(flat, T * T)[k], T), T)
    {
      ChunksShape(Chunks(flat, T * T)[k], T, T);
    }
  }

  /**
   * `a.reshape(n, T, T)` of the loaded buffer, read in C order: defined
   * exactly when the buffer holds n * T * T values, and then n square tiles.
   */
  function Reshape(flat: seq<int>, n: nat, T: Pos): (r: Option<seq<Tile>>)
    ensures r.Some? <==> |flat| == n * (T * T)
    ensures r.Some? ==> |r.value| == n && AllSquare(r.value, T)
  {
    if |flat| != n * (T * T) then None
    else
      ChunkTiles(flat, n, T);
      var chunks := Chunks(flat, T * T);
      Some(seq(n, k requires 0 <= k < n => Chunks(chunks[k], T)))
  }

  /** The C-order buffer of a sequence of tiles (what `np.save` stores). */
  function Pack(tiles: seq<Tile>): seq<int>
  {
    Flatten(seq(|tiles|, k requires 0 <= k < |tiles| => Flatten(tiles[k])))
  }

  /** Reshaping loses nothing: packing the tiles gives the buffer back. */
  lemma ReshapePack(flat: seq<int>, n: nat, T: Pos)
    requires |flat| == n * (T * T)
    ensures Reshape(flat, n, T).Some? && Pack(Reshape(flat, n, T).value) == flat
  {
    var chunks := Chunks(flat, T * T);
    assert |chunks| == n by {
      ChunkTiles(flat, n, T);
    }
    var tiles := Reshape(flat, n, T).value;
    assert tiles == seq(n, k requires 0 <= k < n => Chunks(chunks[k], T));
    var flats := seq(n, k requires 0 <= k < n => Flatten(tiles[k]));
    assert flats == chunks by {
      forall k | 0 <= k < n
        ensures flats[k] == chunks[k]
      {
        FlattenChunks(chunks[k], T);
      }
    }
    assert Flatten(chunks) == flat by {
      FlattenChunks(flat, T * T);
    }
  }

  /** Packing n square tiles and reshaping the buffer gives the tiles back. */
  lemma PackReshape(tiles: seq<Tile>, T: Pos)
    requires AllSquare(tiles, T)
    ensures Reshape(Pack(tiles), |tiles|, T) == Some(tiles)
  {
    var n := |tiles|;
    var flats := seq(n, k requires 0 <= k < n => Flatten(tiles[k]));
    forall k | 0 <= k < n
      ensures |flats[k]| == T * T && Chunks(flats[k], T) == tiles[k]
    {
      assert Uniform(tiles[k], T);
      FlattenLength(tiles[k], T);
      ChunksFlatten(tiles[k], T);
    }
    assert Uniform(flats, T * T);
    FlattenLength(flats, T * T);
    ChunksFlatten(flats, T * T);
    var r := Reshape(Pack(tiles), n, T).value;
    assert r == tiles;
  }

  /** Tile k, row r, column c of the reshaped buffer is value (k * T + r) * T + c of the buffer. */
  lemma ReshapeAt(flat: seq<int>, n: nat, T: Pos, k: nat, r: nat, c: nat)
    requires |flat| == n * (T * T) && k < n && r < T && c < T
    ensures Fov(k, Fov(r, c, T), T * T) < |flat|
    ensures Reshape(flat, n, T).value[k][r][c] == flat[Fov(k, Fov(r, c, T), T * T)]
  {
    ReshapePack(flat, n, T);
    var tiles := Reshape(flat, n, T).value;
    var flats := seq(n, i requires 0 <= i < n => Flatten(tiles[i]));
    forall i | 0 <= i < n
      ensures |flats[i]| == T * T
    {
      assert Uniform(tiles[i], T);
      FlattenLength(tiles[i], T);
    }
    assert Uniform(tiles[k], T);
    FlattenAt(tiles[k], T, r, c);
    FovClosed(r, c, T);
    BlockBound(r, c, T, T);
    FlattenAt(flats, T * T, k, Fov(r, c, T));
  }

  // ---------------------------------------------------------------------
  // The stitched mask

  /** `np.where(v > 0, 1, 0)` on one value. */
  function Bin(v: int): (b: int)
    ensures b in {0, 1}
    ensures b == 1 <==> v > 0
  {
    if v > 0 then 1 else 0
  }

  /** A tile binarised cell by cell. */
  function BinTile(t: Tile): Tile
  {
    seq(|t|, r requires 0 <= r < |t| => seq(|t[r]|, c requires 0 <= c < |t[r]| => Bin(t[r][c])))
  }

  /** `np.concatenate([a, b], axis=1)`: each row of a continued by the same row of b. */
  function HCat(a: seq<seq<int>>, b: seq<seq<int>>): seq<seq<int>>
    requires |a| == |b|
  {
    seq(|a|, r requires 0 <= r < |a| => a[r] + b[r])
  }

  /** The binarised tiles of one grid row side by side: row r is their rows r in order. */
  function Strip(row: seq<Tile>, T: nat): seq<seq<int>>
    requires forall j :: 0 <= j < |row| ==> |row[j]| == T
  {
    seq(T, r requires 0 <= r < T => Flatten(seq(|row|, j requires 0 <= j < |row| => BinTile(row[j])[r])))
  }

  /** Every tile of every grid row is T rows tall. */
  ghost predicate Tall(g: seq<seq<Tile>>, T: nat)
  {
    forall i, j :: 0 <= i < |g| && 0 <= j < |g[i]| ==> |g[i][j]| == T
  }

  /** The strips of the grid rows stacked top to bottom. */
  function Stitch(g: seq<seq<Tile>>, T: nat): seq<seq<int>>
    requires Tall(g, T)
  {
    Flatten(seq(|g|, i requires 0 <= i < |g| => Strip(g[i], T)))
  }

  /** The tiles of a rows x cols mask array as a grid: cell (i, j) holds tile i * cols + j. */
  function Grid(a: seq<Tile>, rows: nat, cols: nat): seq<seq<Tile>>
    requires |a| == rows * cols
  {
    seq(rows, i requires 0 <= i < rows =>
      seq(cols, j requires 0 <= j < cols => FovBijection(i, j, rows, cols); a[Fov(i, j, cols)]))
  }

  /** The grid of square tiles is made of square tiles. */
  lemma GridTall(a: seq<Tile>, rows: nat, cols: nat, T: nat)
    requires |a| == rows * cols && AllSquare(a, T)
    ensures Tall(Grid(a, rows, cols), T)
  {
    forall i, j | 0 <= i < rows && 0 <= j < cols
      ensures |Grid(a, rows, cols)[i][j]| == T
    {
      FovBijection(i, j, rows, cols);
    }
  }

  /** Every row of s has w entries. */
  ghost predicate Width(s: seq<seq<int>>, w: nat)
  {
    forall p :: 0 <= p < |s| ==> |s[p]| == w
  }

  lemma {:induction false} FlattenWidth(g: seq<seq<seq<int>>>, w: nat)
    requires forall i :: 0 <= i < |g| ==> Width(g[i], w)
    ensures Width(Flatten(g), w)
  {
    if g != [] {
      FlattenWidth(g[1..], w);
    }
  }

  /** A strip of n square tiles is T rows of n * T pixels, all 0 or 1. */
  lemma StripShape(row: seq<Tile>, T: nat)
    requires forall j :: 0 <= j < |row| ==> |row[j]| == T && Square(row[j], T)
    ensures |Strip(row, T)| == T && Width(Strip(row, T), |row| * T)
  {
    forall r | 0 <= r < T
      ensures |Strip(row, T)[r]| == |row| * T
    {
      var parts := seq(|row|, j requires 0 <= j < |row| => BinTile(row[j])[r]);
      assert Uniform(parts, T);
      FlattenLength(parts, T);
    }
  }

  /**
   * The stitched mask of a rows x cols grid of T x T tiles is rows * T
   * pixel rows of cols * T pixels.
   */
  lemma StitchShape(a: seq<Tile>, rows: nat, cols: nat, T: nat)
    requires |a| == rows * cols && AllSquare(a, T)
    ensures Tall(Grid(a, rows, cols), T)
    ensures |Stitch(Grid(a, rows, cols), T)| == rows * T
    ensures Width(Stitch(Grid(a, rows, cols), T), cols * T)
  {
    GridTall(a, rows, cols, T);
    var g := Grid(a, rows, cols);
    var strips := seq(rows, i requires 0 <= i < rows => Strip(g[i], T));
    forall i | 0 <= i < rows
      ensures |strips[i]| == T && Width(strips[i], cols * T)
    {
      forall j | 0 <= j < cols
        ensures Square(g[i][j], T)
      {
        FovBijection(i, j, rows, cols);
      }
      StripShape(g[i], T);
    }
    assert Uniform(strips, T);
    FlattenLength(strips, T);
    FlattenWidth(strips, cols * T);
  }

  /**
   * Pixel (i * T + r, j * T + c) of the stitched mask is the binarised cell
   * (r, c) of tile i * cols + j: the tile the partitioner numbered fov
   * i * cols + j.
   */
  lemma StitchAt(a: seq<Tile>, rows: nat, cols: nat, T: nat, i: nat, j: nat, r: nat, c: nat)
    requires |a| == rows * cols && AllSquare(a, T)
    requires i < rows && j < cols && r < T && c < T
    ensures Tall(Grid(a, rows, cols), T)
    ensures Fov(i, r, T) < |Stitch(Grid(a, rows, cols), T)|
    ensures Fov(j, c, T) < |Stitch(Grid(a, rows, cols), T)[Fov(i, r, T)]|
    ensures Fov(i, j, cols) < |a|
    ensures Stitch(Grid(a, rows, cols), T)[Fov(i, r, T)][Fov(j, c, T)] == Bin(a[Fov(i, j, cols)][r][c])
  {
    GridTall(a, rows, cols, T);
    FovBijection(i, j, rows, cols);
    var g := Grid(a, rows, cols);
    var strips := seq(rows, i' requires 0 <= i' < rows => Strip(g[i'], T));
    assert Uniform(strips, T);
    FlattenAt(strips, T, i, r);
    var parts := seq(cols, j' requires 0 <= j' < cols => BinTile(g[i][j'])[r]);
    forall j' | 0 <= j' < cols
      ensures |parts[j']| == T
    {
      FovBijection(i, j', rows, cols);
    }
    assert Uniform(parts, T);
    FlattenAt(parts, T, j, c);
  }

  /**
   * Every pixel (p, q) of the stitched mask is the binarised cell
   * (p % T, q % T) of tile (p / T) * cols + q / T, and so is 0 or 1.
   */
  lemma StitchPixel(a: seq<Tile>, rows: nat, cols: nat, T: Pos, p: nat, q: nat)
    requires |a| == rows * cols && AllSquare(a, T)
    requires p < rows * T && q < cols * T
    ensures p / T < rows && p % T < T && q / T < cols && q % T < T
    ensures Tall(Grid(a, rows, cols), T)
    ensures p < |Stitch(Grid(a, rows, cols), T)| && q < |Stitch(Grid(a, rows, cols), T)[p]|
    ensures PixelFromTile(Stitch(Grid(a, rows, cols), T), a, cols, T, p, q)
    ensures Stitch(Grid(a, rows, cols), T)[p][q] in {0, 1}
  {
    FovInverse(p, rows, T);
    FovInverse(q, cols, T);
    StitchAt(a, rows, cols, T, p / T, q / T, p % T, q % T);
  }

  // ---------------------------------------------------------------------
  // Steps of the stitching loops

  lemma StripOne(t: Tile, T: nat)
    requires |t| == T
    ensures Strip([t], T) == BinTile(t)
  {
    forall r | 0 <= r < T
      ensures Strip([t], T)[r] == BinTile(t)[r]
    {
      var parts := seq(1, j requires 0 <= j < 1 => BinTile([t][j])[r]);
      assert parts == [BinTile(t)[r]];
      assert Flatten(parts) == BinTile(t)[r] + Flatten(parts[1..]);
    }
  }

  lemma StripSnoc(row: seq<Tile>, t: Tile, T: nat)
    requires forall j :: 0 <= j < |row| ==> |row[j]| == T
    requires |t| == T
    ensures Strip(row + [t], T) == HCat(Strip(row, T), BinTile(t))
  {
    var row' := row + [t];
    forall r | 0 <= r < T
      ensures Strip(row', T)[r] == Strip(row, T)[r] + BinTile(t)[r]
    {
      var parts := seq(|row|, j requires 0 <= j < |row| => BinTile(row[j])[r]);
      var parts' := seq(|row'|, j requires 0 <= j < |row'| => BinTile(row'[j])[r]);
      assert parts' == parts + [BinTile(t)[r]];
      FlattenAppend(parts, BinTile(t)[r]);
    }
  }

  lemma StitchSnoc(g: seq<seq<Tile>>, row: seq<Tile>, T: nat)
    requires Tall(g, T) && forall j :: 0 <= j < |row| ==> |row[j]| == T
    ensures Tall(g + [row], T)
    ensures Stitch(g + [row], T) == Stitch(g, T) + Strip(row, T)
  {
    var g' := g + [row];
    assert Tall(g', T) by {
      forall i, j | 0 <= i < |g'| && 0 <= j < |g'[i]|
        ensures |g'[i][j]| == T
      {
        if i < |g| {
          assert g'[i] == g[i];
        }
      }
    }
    var strips := seq(|g|, i requires 0 <= i < |g| => Strip(g[i], T));
    var strips' := seq(|g'|, i requires 0 <= i < |g'| => Strip(g'[i], T));
    assert strips' == strips + [Strip(row, T)];
    FlattenAppend(strips, Strip(row, T));
  }

  /**
   * The column loop of get_boundaries for grid row i: the strip starts as
   * tile cols * i binarised, and tiles i * cols + j for j = 1 .. cols - 1
   * are binarised and appended on the right.
   */
  method StitchRow(a: seq<Tile>, rows: nat, cols: nat, T: Pos, i: nat) returns (rowConcat: seq<seq<int>>)
    requires |a| == rows * cols && AllSquare(a, T) && i < rows && cols > 0
    ensures Tall(Grid(a, rows, cols), T)
    ensures rowConcat == Strip(Grid(a, rows, cols)[i], T)
  {
    GridTall(a, rows, cols, T);
    ghost var row := Grid(a, rows, cols)[i];
    FovBijection(i, 0, rows, cols);
    FovClosed(i, 0, cols);
    rowConcat := BinTile(a[cols * i]);
    StripOne(row[0], T);
    assert row[..1] == [row[0]];
    for j := 1 to cols
      invariant rowConcat == Strip(row[..j], T)
    {
      FovBijection(i, j, rows, cols);
      FovClosed(i, j, cols);
      var fov := BinTile(a[i * cols + j]);
      assert row[..j + 1] == row[..j] + [row[j]];
      StripSnoc(row[..j], row[j], T);
      rowConcat := HCat(rowConcat, fov);
    }
    assert row[..cols] == row;
  }

  /**
   * The stitching loops of get_boundaries: strip i is built by StitchRow;
   * the first strip becomes the mask and each later one is appended below.
   */
  method StitchMasks(a: seq<Tile>, rows: nat, cols: nat, T: Pos) returns (final: seq<seq<int>>)
    requires |a| == rows * cols && AllSquare(a, T) && rows > 0 && cols > 0
    ensures Tall(Grid(a, rows, cols), T)
    ensures final == Stitch(Grid(a, rows, cols), T)
  {
    GridTall(a, rows, cols, T);
    ghost var g := Grid(a, rows, cols);
    final := [];
    assert Stitch(g[..0], T) == [];
    for i := 0 to rows
      invariant final == Stitch(g[..i], T)
    {
      var rowConcat := StitchRow(a, rows, cols, T, i);
      assert g[..i + 1] == g[..i] + [g[i]];
      StitchSnoc(g[..i], g[i], T);
      if i == 0 {
        assert final == [];
        final := rowConcat;
      } else {
        final := final + rowConcat;
      }
    }
    assert g[..rows] == g;
  }

  // ---------------------------------------------------------------------
  // get_boundaries

  /** Why get_boundaries adds no image layer. */
  datatype BoundaryError =
    | MetadataMissing(id: string)                  // no grid-shape record for the source id
    | ShapeMismatch(rows: nat, cols: nat, size: nat) // the buffer is not rows * cols mask tiles
    | EmptyGrid                                    // a 0-row or 0-column grid: the loops never build a mask

  /**
   * What get_boundaries shows for a boundary file with stem `stem` and flat
   * mask buffer `flat`, given the grid-shape records on disk: the stitched
   * 0/1 mask, or the reason nothing is shown.
   */
  function Boundaries(stem: string, metadata: map<string, GridRecord>, flat: seq<int>): (r: Result<seq<seq<int>>, BoundaryError>)
    ensures (r.Failure? && r.error.MetadataMissing?) <==> SourceId(stem) !in metadata
    ensures r.Success? ==> var rec := metadata[SourceId(stem)];
                           rec.rows > 0 && rec.cols > 0 && |flat| == rec.rows * rec.cols * (MASK_TILE * MASK_TILE)
  {
    var id := SourceId(stem);
    if id !in metadata then Failure(MetadataMissing(id))
    else StitchRecord(metadata[id], flat, MASK_TILE)
  }

  /**
   * What get_boundaries shows once the record `rec` is found: the stitched
   * mask of the reshaped buffer, or why the reshape or the loops fail.
   */
  function StitchRecord(rec: GridRecord, flat: seq<int>, T: Pos): (r: Result<seq<seq<int>>, BoundaryError>)
    ensures r.Success? <==> rec.rows > 0 && rec.cols > 0 && |flat| == rec.rows * rec.cols * (T * T)
    ensures r.Failure? ==> !r.error.MetadataMissing?
  {
    match Reshape(flat, rec.rows * rec.cols, T)
    case None => Failure(ShapeMismatch(rec.rows, rec.cols, |flat|))
    case Some(a) =>
      if rec.rows == 0 || rec.cols == 0 then Failure(EmptyGrid)
      else
        GridTall(a, rec.rows, rec.cols, T);
        Success(Stitch(Grid(a, rec.rows, rec.cols), T))
  }

  /**
   * Pixel (p, q) of mask exists and is the binarised cell (p % T, q % T)
   * of tile (p / T) * cols + q / T of a, that tile and cell existing.
   */
  ghost predicate PixelFromTile(mask: seq<seq<int>>, a: seq<Tile>, cols: nat, T: Pos, p: nat, q: nat)
  {
    p < |mask| && q < |mask[p]| &&
    var f := Fov(p / T, q / T, cols);
    f < |a| && p % T < |a[f]| && q % T < |a[f][p % T]| && mask[p][q] == Bin(a[f][p % T][q % T])
  }

  /** Every pixel of mask comes from its tile as PixelFromTile says. */
  ghost predicate FromTiles(mask: seq<seq<int>>, a: seq<Tile>, cols: nat, T: Pos)
  {
    forall p: nat, q: nat :: p < |mask| && q < |mask[p]| ==> PixelFromTile(mask, a, cols, T, p, q)
  }

  /**
   * The stitched mask of a rows x cols grid of T x T tiles is rows * T by
   * cols * T, and each of its pixels comes from the tile and cell that
   * StitchPixel names.
   */
  lemma StitchedPixels(a: seq<Tile>, rows: nat, cols: nat, T: Pos)
    requires |a| == rows * cols && AllSquare(a, T)
    ensures Tall(Grid(a, rows, cols), T)
    ensures |Stitch(Grid(a, rows, cols), T)| == rows * T && Width(Stitch(Grid(a, rows, cols), T), cols * T)
    ensures FromTiles(Stitch(Grid(a, rows, cols), T), a, cols, T)
  {
    StitchShape(a, rows, cols, T);
    var mask := Stitch(Grid(a, rows, cols), T);
    forall p: nat, q: nat | p < |mask| && q < |mask[p]|
      ensures PixelFromTile(mask, a, cols, T, p, q)
    {
      StitchPixel(a, rows, cols, T, p, q);
    }
  }

  /**
   * Stitching with a grid-shape record: the mask is shown exactly when the
   * buffer holds rows * cols tiles of T x T and the grid is non-empty; it
   * is then rows * T by cols * T and built from the reshaped tiles.
   */
  lemma StitchRecordOutcome(rec: GridRecord, flat: seq<int>, T: Pos)
    ensures StitchRecord(rec, flat, T).Success? <==>
              rec.rows > 0 && rec.cols > 0 && |flat| == rec.rows * rec.cols * (T * T)
    ensures StitchRecord(rec, flat, T).Failure? ==>
              StitchRecord(rec, flat, T).error ==
                if |flat| != rec.rows * rec.cols * (T * T) then ShapeMismatch(rec.rows, rec.cols, |flat|) else EmptyGrid
    ensures StitchRecord(rec, flat, T).Success? ==>
              var mask := StitchRecord(rec, flat, T).value;
              Reshape(flat, rec.rows * rec.cols, T).Some? &&
              |mask| == rec.rows * T && Width(mask, rec.cols * T) &&
              FromTiles(mask, Reshape(flat, rec.rows * rec.cols, T).value, rec.cols, T)
  {
    var rows, cols := rec.rows, rec.cols;
    assert rows * cols * (T * T) == (rows * cols) * (T * T);
    var r := Reshape(flat, rows * cols, T);
    if r.Some? && rows > 0 && cols > 0 {
      StitchedPixels(r.value, rows, cols, T);
    }
  }

  /**
   * The outcome of get_boundaries: nothing is shown exactly when the record
   * is missing, the buffer is not rows * cols tiles of 2048 x 2048 or the
   * grid is empty, and the error says which; a shown mask is rows * 2048 by
   * cols * 2048 and pixel (p, q) is the binarised cell (p % 2048, q % 2048)
   * of mask tile (p / 2048) * cols + q / 2048.
   */
  lemma BoundariesOutcome(stem: string, metadata: map<string, GridRecord>, flat: seq<int>)
    ensures var id := SourceId(stem);
            Boundaries(stem, metadata, flat).Success? <==>
              id in metadata && metadata[id].rows > 0 && metadata[id].cols > 0 &&
              |flat| == metadata[id].rows * metadata[id].cols * (MASK_TILE * MASK_TILE)
    ensures var id := SourceId(stem);
            Boundaries(stem, metadata, flat).Failure? ==>
              Boundaries(stem, metadata, flat).error ==
                if id !in metadata then MetadataMissing(id)
                else if |flat| != metadata[id].rows * metadata[id].cols * (MASK_TILE * MASK_TILE)
                then ShapeMismatch(metadata[id].rows, metadata[id].cols, |flat|)
                else EmptyGrid
    ensures var id := SourceId(stem);
            Boundaries(stem, metadata, flat).Success? ==>
              var rec, mask := metadata[id], Boundaries(stem, metadata, flat).value;
              Reshape(flat, rec.rows * rec.cols, MASK_TILE).Some? &&
              |mask| == rec.rows * MASK_TILE && Width(mask, rec.cols * MASK_TILE) &&
              FromTiles(mask, Reshape(flat, rec.rows * rec.cols, MASK_TILE).value, rec.cols, MASK_TILE)
  {
    var id := SourceId(stem);
    if id in metadata {
      StitchRecordOutcome(metadata[id], flat, MASK_TILE);
    }
  }

  /** `(mask * 255)`: the gray level of every pixel. */
  function Scale(mask: seq<seq<int>>): seq<seq<int>>
  {
    seq(|mask|, p requires 0 <= p < |mask| => seq(|mask[p]|, q requires 0 <= q < |mask[p]| => mask[p][q] * 255))
  }

  /**
   * PIL's conversion of a grayscale image to RGBA, by its documented
   * behaviour: the gray level in R, G and B, and an opaque alpha of 255.
   */
  method ToRgba(gray: seq<seq<int>>, width: nat) returns (img: array3<int>)
    requires Width(gray, width)
    ensures fresh(img)
    ensures img.Length0 == |gray| && img.Length1 == width && img.Length2 == 4
    ensures forall p, q, k :: 0 <= p < |gray| && 0 <= q < width && 0 <= k < 4 ==>
              img[p, q, k] == if k < 3 then gray[p][q] else 255
  {
    img := new int[|gray|, width, 4]((p, q, k) requires 0 <= p < |gray| && 0 <= q < width =>
      if k < 3 then gray[p][q] else 255);
  }

  /**
   * img is the RGBA layer of mask: one pixel per mask pixel, and every
   * channel of a pixel, alpha included, is 255 * mask.
   */
  ghost predicate ShowsMask(img: array3<int>, mask: seq<seq<int>>)
    reads img
  {
    img.Length0 == |mask| && img.Length2 == 4 && Width(mask, img.Length1) &&
    forall p, q, k :: 0 <= p < img.Length0 && 0 <= q < img.Length1 && 0 <= k < 4 ==>
      q < |mask[p]| && img[p, q, k] == 255 * mask[p][q]
  }

  /**
   * The image-building part of get_boundaries: the tiles are stitched, the
   * mask scaled to 0/255 and converted to RGBA, and the alpha plane then
   * overwritten in place with 255 * mask.
   */
  method MaskImage(a: seq<Tile>, rows: nat, cols: nat, T: Pos) returns (img: array3<int>)
    requires |a| == rows * cols && AllSquare(a, T) && rows > 0 && cols > 0
    ensures Tall(Grid(a, rows, cols), T)
    ensures fresh(img)
    ensures img.Length0 == rows * T && img.Length1 == cols * T
    ensures ShowsMask(img, Stitch(Grid(a, rows, cols), T))
  {
    var final := StitchMasks(a, rows, cols, T);
    StitchShape(a, rows, cols, T);
    img := ToRgba(Scale(final), cols * T);
    forall p, q | 0 <= p < img.Length0 && 0 <= q < img.Length1 {
      img[p, q, 3] := final[p][q] * 255;
    }
  }

  /**
   * get_boundaries: looks up the grid shape of the boundary file's source,
   * reshapes the buffer and, when a non-empty grid was found, builds the
   * RGBA layer whose every channel is 255 * mask, so that background is
   * transparent and cell boundaries opaque.
   */
  method GetBoundaries(stem: string, metadata: map<string, GridRecord>, flat: seq<int>)
    returns (res: Result<array3<int>, BoundaryError>)
    ensures res.Failure? <==> Boundaries(stem, metadata, flat).Failure?
    ensures res.Failure? ==> res.error == Boundaries(stem, metadata, flat).error
    ensures res.Success? ==> Boundaries(stem, metadata, flat).Success? &&
                             ShowsMask(res.value, Boundaries(stem, metadata, flat).value)
  {
    var id := SourceId(stem);
    if id !in metadata {
      return Failure(MetadataMissing(id));
    }
    res := ShowRecord(metadata[id], flat, MASK_TILE);
  }

  /**
   * The reshape and stitch of get_boundaries once a grid-shape record was
   * found: the RGBA layer of the stitched mask, or why there is none.
   */
  method ShowRecord(rec: GridRecord, flat: seq<int>, T: Pos) returns (res: Result<array3<int>, BoundaryError>)
    ensures res.Failure? <==> StitchRecord(rec, flat, T).Failure?
    ensures res.Failure? ==> res.error == StitchRecord(rec, flat, T).error
    ensures res.Success? ==> StitchRecord(rec, flat, T).Success? && ShowsMask(res.value, StitchRecord(rec, flat, T).value)
  {
    var shaped := Reshape(flat, rec.rows * rec.cols, T);
    if shaped.None? {
      return Failure(ShapeMismatch(rec.rows, rec.cols, |flat|));
    }
    if rec.rows == 0 || rec.cols == 0 {
      return Failure(EmptyGrid);
    }
    var img := MaskImage(shaped.value, rec.rows, rec.cols, T);
    return Success(img);
  }
}
