/**
 * The tile partitioner of tile_czi.py: every channel mosaic of a CZI file is
 * cut into a row-major grid of square tiles (edge tiles zero-padded at the
 * bottom and right), each tile is stored under its field-of-view number, a
 * bounding-box line per tile is appended for the first channel, and the grid
 * shape is recorded once, behind a process-wide one-shot flag.
 */
module Tiling {
  import opened GridIndex

  type Pos = n: nat | n > 0 witness 1

  /** The decoded plane `im[0]` of one channel: w rows of h pixels. */
  datatype Mosaic = Mosaic(w: nat, h: nat, px: seq<seq<int>>) {
    ghost predicate Valid()
    {
      |px| == w && forall i :: 0 <= i < w ==> |px[i]| == h
    }
  }

  /** A decoded CZI file: its file stem and one mosaic per channel. */
  datatype CziImage = CziImage(stem: string, channels: seq<Mosaic>) {
    ghost predicate Valid()
    {
      forall c :: 0 <= c < |channels| ==> channels[c].Valid()
    }
  }

  type Tile = seq<seq<int>>

  /** The grid-shape record written to `.<stem>_metadata.json`. */
  datatype GridRecord = GridRecord(rows: nat, cols: nat, filename: string)

  /** One line `fov<n>,x,x_end,y,y_end` of tile_metadata.txt (after its header). */
  datatype BBox = BBox(fov: nat, x: nat, xEnd: nat, y: nat, yEnd: nat)

  /** Where a tile is written: `<dir>/fov<fov>/<channel>.tiff`. */
  datatype TileKey = TileKey(dir: string, fov: nat, channel: string)

  /** The output directory of a CZI file. */
  function Dir(stem: string): string
  {
    stem + "_dir"
  }

  /** Both dimensions of t are `size`. */
  ghost predicate Square(t: Tile, size: nat)
  {
    |t| == size && forall r :: 0 <= r < size ==> |t[r]| == size
  }

  /** Cell (r, c) of the tile whose block starts at (x, y): copied inside the covered extent, zero outside. */
  function TileCell(m: Mosaic, x: nat, y: nat, size: Pos, r: nat, c: nat): int
    requires m.Valid()
  {
    if r < Extent(x, m.w, size) - x && c < Extent(y, m.h, size) - y then m.px[x + r][y + c] else 0
  }

  /** The tile stored for the block starting at (x, y). */
  function ExpectedTile(m: Mosaic, x: nat, y: nat, size: Pos): Tile
    requires m.Valid()
  {
    seq(size, r requires 0 <= r < size => seq(size, c requires 0 <= c < size => TileCell(m, x, y, size, r, c)))
  }

  /**
   * Every stored tile is size x size; a cell holds the mosaic pixel when it
   * falls on the mosaic and 0 otherwise, so padding only ever extends below
   * and to the right of the copied region.
   */
  lemma ExpectedTileCells(m: Mosaic, x: nat, y: nat, size: Pos)
    requires m.Valid()
    ensures Square(ExpectedTile(m, x, y, size), size)
    ensures forall r, c :: 0 <= r < size && 0 <= c < size ==>
              ExpectedTile(m, x, y, size)[r][c] == (if x + r < m.w && y + c < m.h then m.px[x + r][y + c] else 0)
  {
  }

  /** The grid shape recorded for a mosaic. */
  function GridOf(m: Mosaic, size: Pos, stem: string): GridRecord
  {
    GridRecord(|Offsets(m.w, size)|, |Offsets(m.h, size)|, stem)
  }

  /** The tile of grid cell (i, j): the block starting at (i * size, j * size). */
  function BlockTile(m: Mosaic, size: Pos, i: nat, j: nat): Tile
    requires m.Valid()
  {
    ExpectedTile(m, i * size, j * size, size)
  }

  /** The bounding-box line of grid cell (i, j) in a grid with `cols` columns. */
  function BlockBox(m: Mosaic, size: Pos, i: nat, j: nat, cols: nat): BBox
  {
    var x, y := i * size, j * size;
    BBox(Fov(i, j, cols), x, Extent(x, m.w, size), y, Extent(y, m.h, size))
  }

  /** The tiles of the blocks starting at row offset rows[i] and column offset cols[j], laid out by (i, j). */
  function TileGridOf(m: Mosaic, rows: seq<nat>, cols: seq<nat>, size: Pos): seq<seq<Tile>>
    requires m.Valid()
  {
    seq(|rows|, i requires 0 <= i < |rows| =>
      seq(|cols|, j requires 0 <= j < |cols| => ExpectedTile(m, rows[i], cols[j], size)))
  }

  /** The tiles of one mosaic, grid row i holding the blocks that start at row offset i. */
  function TileGrid(m: Mosaic, size: Pos): seq<seq<Tile>>
    requires m.Valid()
  {
    TileGridOf(m, Offsets(m.w, size), Offsets(m.h, size), size)
  }

  /** The tiles of one mosaic in fov order. */
  function ChannelTiles(m: Mosaic, size: Pos): seq<Tile>
    requires m.Valid()
  {
    Flatten(TileGrid(m, size))
  }

  /** The bounding boxes of one mosaic's tiles, laid out like TileGrid. */
  function BBoxGrid(m: Mosaic, size: Pos): seq<seq<BBox>>
  {
    BBoxGridOf(m, Offsets(m.w, size), Offsets(m.h, size), size)
  }

  /** The bounding boxes of the blocks starting at rows[i] and cols[j], laid out by (i, j). */
  function BBoxGridOf(m: Mosaic, rows: seq<nat>, cols: seq<nat>, size: Pos): seq<seq<BBox>>
  {
    seq(|rows|, i requires 0 <= i < |rows| =>
      seq(|cols|, j requires 0 <= j < |cols| =>
        BBox(Fov(i, j, |cols|), rows[i], Extent(rows[i], m.w, size), cols[j], Extent(cols[j], m.h, size))))
  }

  /** The bounding-box lines written for the first channel, in fov order. */
  function BBoxLines(m: Mosaic, size: Pos): seq<BBox>
  {
    Flatten(BBoxGrid(m, size))
  }

  /**
   * The stored tiles of fovs 0 .. k-1 of one channel: tile f under the key
   * of fov f, and no other key.
   */
  function TilesUpTo(dir: string, name: string, tiles: seq<Tile>, k: nat): map<TileKey, Tile>
    requires k <= |tiles|
  {
    if k == 0 then map[] else TilesUpTo(dir, name, tiles, k - 1)[TileKey(dir, k - 1, name) := tiles[k - 1]]
  }

  /** TilesUpTo holds exactly the keys of fovs 0 .. k-1 of the channel, each with its own tile. */
  lemma {:induction false} TilesUpToKeys(dir: string, name: string, tiles: seq<Tile>, k: nat)
    requires k <= |tiles|
    ensures forall f: nat :: TileKey(dir, f, name) in TilesUpTo(dir, name, tiles, k) <==> f < k
    ensures forall key :: key in TilesUpTo(dir, name, tiles, k) ==>
              key.dir == dir && key.channel == name && key.fov < k && TilesUpTo(dir, name, tiles, k)[key] == tiles[key.fov]
  {
    if k > 0 {
      TilesUpToKeys(dir, name, tiles, k - 1);
    }
  }

  /** Everything tiling one mosaic stores. */
  function ChannelTileMap(dir: string, name: string, m: Mosaic, size: Pos): map<TileKey, Tile>
    requires m.Valid()
  {
    TilesUpTo(dir, name, ChannelTiles(m, size), |ChannelTiles(m, size)|)
  }

  /** Everything tiling the first k channels of a file stores, later channels overwriting earlier ones. */
  function FileTileMap(f: CziImage, names: seq<string>, size: Pos, k: nat): map<TileKey, Tile>
    requires f.Valid() && k <= |names| && k <= |f.channels|
  {
    if k == 0 then map[]
    else FileTileMap(f, names, size, k - 1) + ChannelTileMap(Dir(f.stem), names[k - 1], f.channels[k - 1], size)
  }

  /** Everything tiling the first k files stores. */
  function FilesTileMap(files: seq<CziImage>, names: seq<string>, size: Pos, k: nat): map<TileKey, Tile>
    requires k <= |files|
    requires forall i :: 0 <= i < k ==> files[i].Valid() && |files[i].channels| == |names|
  {
    if k == 0 then map[]
    else FilesTileMap(files, names, size, k - 1) + FileTileMap(files[k - 1], names, size, |names|)
  }

  /** The bounding-box file of a CZI file after tiling it: lines for channel 0 only. */
  function FileBBoxes(f: CziImage, size: Pos): seq<BBox>
  {
    if |f.channels| > 0 then BBoxLines(f.channels[0], size) else []
  }

  /** The bounding-box files after tiling the first k files. */
  function FilesBBoxes(base: map<string, seq<BBox>>, files: seq<CziImage>, size: Pos, k: nat): map<string, seq<BBox>>
    requires k <= |files|
  {
    if k == 0 then base
    else FilesBBoxes(base, files, size, k - 1)[Dir(files[k - 1].stem) := FileBBoxes(files[k - 1], size)]
  }

  /**
   * The grid-shape records written for the first k files when the one-shot
   * flag is lowered before each: one per file with a channel, a later file
   * with the same stem replacing the earlier record.
   */
  function RecordsOf(files: seq<CziImage>, size: Pos, k: nat): map<string, GridRecord>
    requires k <= |files|
  {
    if k == 0 then map[]
    else if |files[k - 1].channels| == 0 then RecordsOf(files, size, k - 1)
    else RecordsOf(files, size, k - 1)[files[k - 1].stem := GridOf(files[k - 1].channels[0], size, files[k - 1].stem)]
  }

  /** Every file with a channel has a record: the one of the last file with its stem. */
  lemma {:induction false} RecordsOfLast(files: seq<CziImage>, size: Pos, k: nat, i: nat)
    requires i < k <= |files| && |files[i].channels| > 0
    requires forall i' :: i < i' < k ==> files[i'].stem != files[i].stem
    ensures files[i].stem in RecordsOf(files, size, k)
    ensures RecordsOf(files, size, k)[files[i].stem] == GridOf(files[i].channels[0], size, files[i].stem)
  {
    if i < k - 1 {
      RecordsOfLast(files, size, k - 1, i);
    }
  }

  /** Only the stems of files with a channel get a record. */
  lemma {:induction false} RecordsOfDomain(files: seq<CziImage>, size: Pos, k: nat, stem: string)
    requires k <= |files|
    requires stem in RecordsOf(files, size, k)
    ensures exists i :: 0 <= i < k && files[i].stem == stem && |files[i].channels| > 0
  {
    if |files[k - 1].channels| > 0 && files[k - 1].stem == stem {
    } else {
      RecordsOfDomain(files, size, k - 1, stem);
    }
  }

  // ---------------------------------------------------------------------
  // Properties of the partition

  /** The tile grid has one row per row offset and one column per column offset. */
  lemma TileGridShape(m: Mosaic, size: Pos)
    requires m.Valid()
    ensures |TileGrid(m, size)| == |Offsets(m.w, size)|
    ensures Uniform(TileGrid(m, size), |Offsets(m.h, size)|)
    ensures |ChannelTiles(m, size)| == |Offsets(m.w, size)| * |Offsets(m.h, size)|
  {
    var g := TileGrid(m, size);
    assert Uniform(g, |Offsets(m.h, size)|);
    FlattenLength(g, |Offsets(m.h, size)|);
  }

  /** The bounding-box grid has the shape of the tile grid. */
  lemma BBoxGridShape(m: Mosaic, size: Pos)
    ensures |BBoxGrid(m, size)| == |Offsets(m.w, size)|
    ensures Uniform(BBoxGrid(m, size), |Offsets(m.h, size)|)
    ensures |BBoxLines(m, size)| == |Offsets(m.w, size)| * |Offsets(m.h, size)|
  {
    var g := BBoxGrid(m, size);
    assert Uniform(g, |Offsets(m.h, size)|);
    FlattenLength(g, |Offsets(m.h, size)|);
  }

  /**
   * The grid has ceil(w / size) rows and ceil(h / size) columns, and the
   * tile in grid row i and column j is stored under fov i * cols + j and
   * holds the block that starts at (i * size, j * size).
   */
  lemma ChannelTilesAt(m: Mosaic, size: Pos, i: nat, j: nat)
    requires m.Valid()
    requires i < |Offsets(m.w, size)| && j < |Offsets(m.h, size)|
    ensures var cols := |Offsets(m.h, size)|;
            Fov(i, j, cols) < |ChannelTiles(m, size)| &&
            ChannelTiles(m, size)[Fov(i, j, cols)] == BlockTile(m, size, i, j)
  {
    OffsetsShape(m.w, size);
    OffsetsShape(m.h, size);
    var g := TileGrid(m, size);
    assert Uniform(g, |Offsets(m.h, size)|);
    FlattenAt(g, |Offsets(m.h, size)|, i, j);
  }

  /** The bounding-box line of grid cell (i, j) sits at its fov and holds the block's clipped extents. */
  lemma BBoxLinesAtCell(m: Mosaic, size: Pos, i: nat, j: nat)
    requires i < |Offsets(m.w, size)| && j < |Offsets(m.h, size)|
    ensures var cols := |Offsets(m.h, size)|;
            Fov(i, j, cols) < |BBoxLines(m, size)| &&
            BBoxLines(m, size)[Fov(i, j, cols)] == BlockBox(m, size, i, j, cols)
  {
    OffsetsShape(m.w, size);
    OffsetsShape(m.h, size);
    var g := BBoxGrid(m, size);
    assert Uniform(g, |Offsets(m.h, size)|);
    FlattenAt(g, |Offsets(m.h, size)|, i, j);
  }

  /** Every fov below rows * cols numbers exactly one stored tile, the one of cell (fov / cols, fov % cols). */
  lemma ChannelTilesCover(m: Mosaic, size: Pos, f: nat)
    requires m.Valid()
    ensures |ChannelTiles(m, size)| == |Offsets(m.w, size)| * |Offsets(m.h, size)|
    ensures var rows, cols := |Offsets(m.w, size)|, |Offsets(m.h, size)|;
            f < rows * cols ==> cols > 0 && f / cols < rows && f % cols < cols
    ensures var rows, cols := |Offsets(m.w, size)|, |Offsets(m.h, size)|;
            f < rows * cols ==> ChannelTiles(m, size)[f] == BlockTile(m, size, f / cols, f % cols)
  {
    TileGridShape(m, size);
    if f < |Offsets(m.w, size)| * |Offsets(m.h, size)| {
      FovInverse(f, |Offsets(m.w, size)|, |Offsets(m.h, size)|);
      ChannelTilesAt(m, size, f / |Offsets(m.h, size)|, f % |Offsets(m.h, size)|);
    }
  }

  /** Line f of `lines` is the box of grid cell (f / cols, f % cols) and carries fov f. */
  ghost predicate LineOfFov(lines: seq<BBox>, m: Mosaic, size: Pos, f: nat, cols: nat)
  {
    cols > 0 && f < |lines| && lines[f] == BlockBox(m, size, f / cols, f % cols, cols) && lines[f].fov == f
  }

  /**
   * tile_metadata.txt gets exactly one line per fov, in fov order, holding
   * the block's start offsets and its clipped extents.
   */
  lemma BBoxLinesAt(m: Mosaic, size: Pos, f: nat)
    ensures |BBoxLines(m, size)| == |Offsets(m.w, size)| * |Offsets(m.h, size)|
    ensures var rows, cols := |Offsets(m.w, size)|, |Offsets(m.h, size)|;
            f < rows * cols ==> cols > 0 && f / cols < rows && f % cols < cols
    ensures f < |BBoxLines(m, size)| ==> LineOfFov(BBoxLines(m, size), m, size, f, |Offsets(m.h, size)|)
  {
    BBoxGridShape(m, size);
    if f < |Offsets(m.w, size)| * |Offsets(m.h, size)| {
      FovInverse(f, |Offsets(m.w, size)|, |Offsets(m.h, size)|);
      BBoxLinesAtCell(m, size, f / |Offsets(m.h, size)|, f % |Offsets(m.h, size)|);
    }
  }

  lemma UnionAssoc<K, V>(a: map<K, V>, b: map<K, V>, c: map<K, V>)
    ensures a + b + c == a + (b + c)
  {
  }

  lemma UnionUpdate<K, V>(a: map<K, V>, b: map<K, V>, key: K, v: V)
    ensures (a + b)[key := v] == a + b[key := v]
  {
  }

  lemma FilesStep(base: map<TileKey, Tile>, files: seq<CziImage>, names: seq<string>, size: Pos, k: nat,
                  before: map<TileKey, Tile>, after: map<TileKey, Tile>)
    requires k < |files|
    requires forall i :: 0 <= i <= k ==> files[i].Valid() && |files[i].channels| == |names|
    requires before == base + FilesTileMap(files, names, size, k)
    requires after == before + FileTileMap(files[k], names, size, |names|)
    ensures after == base + FilesTileMap(files, names, size, k + 1)
  {
    UnionAssoc(base, FilesTileMap(files, names, size, k),
               FileTileMap(files[k], names, size, |names|));
  }

  /**
   * Tile store t and bounding-box files b after the first k files were tiled
   * from t0 and b0, every one of them with the configured channel count.
   */
  ghost predicate RunState(t: map<TileKey, Tile>, b: map<string, seq<BBox>>, t0: map<TileKey, Tile>, b0: map<string, seq<BBox>>,
                           files: seq<CziImage>, names: seq<string>, size: Pos, k: nat)
  {
    k <= |files| && (forall i :: 0 <= i < |files| ==> files[i].Valid()) &&
    (forall i :: 0 <= i < k ==> |files[i].channels| == |names|) &&
    t == t0 + FilesTileMap(files, names, size, k) &&
    b == FilesBBoxes(b0, files, size, k)
  }

  lemma RunStart(t0: map<TileKey, Tile>, b0: map<string, seq<BBox>>, files: seq<CziImage>, names: seq<string>, size: Pos)
    requires forall i :: 0 <= i < |files| ==> files[i].Valid()
    ensures RunState(t0, b0, t0, b0, files, names, size, 0)
  {
    assert t0 + map[] == t0;
  }

  lemma RunStep(t: map<TileKey, Tile>, b: map<string, seq<BBox>>, t0: map<TileKey, Tile>, b0: map<string, seq<BBox>>,
                files: seq<CziImage>, names: seq<string>, size: Pos, k: nat)
    requires k < |files| && RunState(t, b, t0, b0, files, names, size, k)
    requires |files[k].channels| == |names|
    ensures RunState(t + FileTileMap(files[k], names, size, |names|), b[Dir(files[k].stem) := FileBBoxes(files[k], size)],
                     t0, b0, files, names, size, k + 1)
  {
    FilesStep(t0, files, names, size, k, t, t + FileTileMap(files[k], names, size, |names|));
  }

  /**
   * The one-shot state after the first k files of an as-written run, from
   * records m0, flag w0 and write count n0: only the first file, and only
   * when the flag was down, raises the flag and gets a record.
   */
  ghost predicate OneShot(md: map<string, GridRecord>, w: bool, n: nat, m0: map<string, GridRecord>, w0: bool, n0: nat,
                          files: seq<CziImage>, names: seq<string>, size: Pos, k: nat)
  {
    var wrote := !w0 && k > 0 && |names| > 0;
    w == (w0 || wrote) && n == n0 + (if wrote then 1 else 0) &&
    if wrote then 0 < |files| && |files[0].channels| > 0 && md == m0[files[0].stem := GridOf(files[0].channels[0], size, files[0].stem)]
    else md == m0
  }

  lemma OneShotStep(md: map<string, GridRecord>, w: bool, n: nat, md': map<string, GridRecord>, w': bool, n': nat,
                    m0: map<string, GridRecord>, w0: bool, n0: nat, files: seq<CziImage>, names: seq<string>, size: Pos, k: nat)
    requires k < |files| && |files[k].channels| == |names|
    requires OneShot(md, w, n, m0, w0, n0, files, names, size, k)
    requires var wrote := |files[k].channels| > 0 && !w;
             w' == (w || wrote) && n' == n + (if wrote then 1 else 0) &&
             md' == if wrote then md[files[k].stem := GridOf(files[k].channels[0], size, files[k].stem)] else md
    ensures OneShot(md', w', n', m0, w0, n0, files, names, size, k + 1)
  {
  }

  /** What the one-shot state says about the write count and the records. */
  lemma OneShotFacts(md: map<string, GridRecord>, w: bool, n: nat, m0: map<string, GridRecord>, w0: bool, n0: nat,
                     files: seq<CziImage>, names: seq<string>, size: Pos, k: nat)
    requires OneShot(md, w, n, m0, w0, n0, files, names, size, k)
    ensures n <= n0 + 1
    ensures w0 ==> md == m0 && n == n0
    ensures !w0 && k > 0 && |names| > 0 ==>
              0 < |files| && |files[0].channels| > 0 &&
              md == m0[files[0].stem := GridOf(files[0].channels[0], size, files[0].stem)]
  {
  }

  /** Records md are m0 plus one record per file among the first k, as RecordsOf says. */
  ghost predicate Recorded(md: map<string, GridRecord>, m0: map<string, GridRecord>, files: seq<CziImage>, size: Pos, k: nat)
  {
    k <= |files| && md == m0 + RecordsOf(files, size, k)
  }

  lemma RecordedStart(m0: map<string, GridRecord>, files: seq<CziImage>, size: Pos)
    ensures Recorded(m0, m0, files, size, 0)
  {
    assert m0 + map[] == m0;
  }

  /**
   * The one-shot flag and the breakdown-write count after the first k files
   * of a run that lowers the flag before each: one write per tiled file when
   * channels are configured, and the flag up exactly then.
   */
  ghost predicate SourceFlags(w: bool, n: nat, w0: bool, n0: nat, names: seq<string>, k: nat)
  {
    n == n0 + (if |names| > 0 then k else 0) &&
    w == if k == 0 then w0 else |names| > 0
  }

  lemma PerSourceStep(md: map<string, GridRecord>, md': map<string, GridRecord>, m0: map<string, GridRecord>,
                      files: seq<CziImage>, size: Pos, k: nat)
    requires k < |files|
    requires Recorded(md, m0, files, size, k)
    requires md' == if |files[k].channels| > 0 then md[files[k].stem := GridOf(files[k].channels[0], size, files[k].stem)] else md
    ensures Recorded(md', m0, files, size, k + 1)
  {
    if |files[k].channels| > 0 {
      UnionUpdate(m0, RecordsOf(files, size, k), files[k].stem, GridOf(files[k].channels[0], size, files[k].stem));
    }
  }

  /**
   * The stores after tiling fovs 0 .. k-1 of a mosaic, starting from tile
   * store t0 and bounding-box files b0.
   */
  ghost predicate Progress(t: map<TileKey, Tile>, b: map<string, seq<BBox>>, t0: map<TileKey, Tile>, b0: map<string, seq<BBox>>,
                           all: seq<Tile>, lines: seq<BBox>, channel: nat, name: string, dir: string, k: nat)
  {
    dir in b0 && k <= |all| && k <= |lines| &&
    t == t0 + TilesUpTo(dir, name, all, k) &&
    b == if channel == 0 then b0[dir := b0[dir] + lines[..k]] else b0
  }

  lemma ProgressStart(t0: map<TileKey, Tile>, b0: map<string, seq<BBox>>, all: seq<Tile>, lines: seq<BBox>,
                      channel: nat, name: string, dir: string)
    requires dir in b0
    ensures Progress(t0, b0, t0, b0, all, lines, channel, name, dir, 0)
  {
    assert TilesUpTo(dir, name, all, 0) == map[];
    assert b0[dir] + lines[..0] == b0[dir];
    assert b0[dir := b0[dir]] == b0;
  }

  lemma ProgressStep(t: map<TileKey, Tile>, b: map<string, seq<BBox>>, t0: map<TileKey, Tile>, b0: map<string, seq<BBox>>,
                     all: seq<Tile>, lines: seq<BBox>, channel: nat, name: string, dir: string, k: nat)
    requires Progress(t, b, t0, b0, all, lines, channel, name, dir, k)
    requires k < |all| && k < |lines|
    ensures Progress(t[TileKey(dir, k, name) := all[k]],
                     if channel == 0 then b[dir := b[dir] + [lines[k]]] else b,
                     t0, b0, all, lines, channel, name, dir, k + 1)
  {
    assert b0[dir] + lines[..k + 1] == (b0[dir] + lines[..k]) + [lines[k]];
  }

  lemma ProgressEnd(t: map<TileKey, Tile>, b: map<string, seq<BBox>>, t0: map<TileKey, Tile>, b0: map<string, seq<BBox>>,
                    m: Mosaic, size: Pos, channel: nat, name: string, dir: string)
    requires m.Valid()
    requires |ChannelTiles(m, size)| == |BBoxLines(m, size)|
    requires Progress(t, b, t0, b0, ChannelTiles(m, size), BBoxLines(m, size), channel, name, dir, |ChannelTiles(m, size)|)
    ensures t == t0 + ChannelTileMap(dir, name, m, size)
    ensures b == if channel == 0 then b0[dir := b0[dir] + BBoxLines(m, size)] else b0
  {
    assert BBoxLines(m, size)[..|BBoxLines(m, size)|] == BBoxLines(m, size);
  }

  lemma SquareExt(t: Tile, u: Tile, size: nat)
    requires Square(t, size) && Square(u, size)
    requires forall r, c :: 0 <= r < size && 0 <= c < size ==> t[r][c] == u[r][c]
    ensures t == u
  {
    forall r | 0 <= r < size ensures t[r] == u[r] {
    }
  }

  // ---------------------------------------------------------------------
  // The partitioner

  class Tiler {
    /** TILE_SIZE. */
    const tileSize: Pos
    /** The configured channel names (`channels_to_use`). */
    const channelsToUse: seq<string>
    /** The process-wide one-shot flag guarding write_tile_breakdown. */
    var written: bool
    /** How many grid-shape records this process has written. */
    ghost var breakdownWrites: nat
    /** The grid-shape records on disk, keyed by CZI stem. */
    var metadata: map<string, GridRecord>
    /** The tile files on disk. */
    var tiles: map<TileKey, Tile>
    /** The bounding-box lines of each output directory's tile_metadata.txt. */
    var bboxFiles: map<string, seq<BBox>>

    constructor (tileSize: Pos, channelsToUse: seq<string>, metadata: map<string, GridRecord>,
                 tiles: map<TileKey, Tile>, bboxFiles: map<string, seq<BBox>>)
      ensures this.tileSize == tileSize && this.channelsToUse == channelsToUse
      ensures !written && breakdownWrites == 0
      ensures this.metadata == metadata && this.tiles == tiles && this.bboxFiles == bboxFiles
    {
      this.tileSize := tileSize;
      this.channelsToUse := channelsToUse;
      written := false;
      breakdownWrites := 0;
      this.metadata := metadata;
      this.tiles := tiles;
      this.bboxFiles := bboxFiles;
    }

    /** Records the grid shape of a CZI file and raises the one-shot flag. */
    method WriteTileBreakdown(rows: nat, cols: nat, stem: string)
      modifies this`written, this`metadata, this`breakdownWrites
      ensures written
      ensures metadata == old(metadata)[stem := GridRecord(rows, cols, stem)]
      ensures breakdownWrites == old(breakdownWrites) + 1
    {
      written := true;
      breakdownWrites := breakdownWrites + 1;
      metadata := metadata[stem := GridRecord(rows, cols, stem)];
    }

    /**
     * A zero-filled size x size buffer with the mosaic window [x, xEnd) x
     * [y, yEnd) copied into its top-left corner.
     */
    method CopyTile(m: Mosaic, x: nat, xEnd: nat, y: nat, yEnd: nat) returns (tile: Tile)
      requires m.Valid()
      requires x <= xEnd <= m.w && xEnd - x <= tileSize
      requires y <= yEnd <= m.h && yEnd - y <= tileSize
      ensures Square(tile, tileSize)
      ensures forall r, c :: 0 <= r < tileSize && 0 <= c < tileSize ==>
                tile[r][c] == (if r < xEnd - x && c < yEnd - y then m.px[x + r][y + c] else 0)
    {
      var buf := new int[tileSize, tileSize]((r, c) => 0);
      forall r, c | 0 <= r < xEnd - x && 0 <= c < yEnd - y {
        buf[r, c] := m.px[x + r][y + c];
      }
      tile := seq(tileSize, r requires 0 <= r < tileSize reads buf =>
                seq(tileSize, c requires 0 <= c < tileSize reads buf => buf[r, c]));
    }

    /**
     * The body of the tiling loop for grid cell (i, j): the block is copied
     * into a fresh zero-padded tile stored under the cell's fov, and for
     * channel 0 the block's bounding-box line is appended.
     */
    method StoreTile(m: Mosaic, channel: nat, name: string, dir: string, i: nat, j: nat, fov: nat)
      requires m.Valid() && dir in bboxFiles
      requires i < |Offsets(m.w, tileSize)| && j < |Offsets(m.h, tileSize)|
      requires fov == Fov(i, j, |Offsets(m.h, tileSize)|)
      modifies this`tiles, this`bboxFiles
      ensures fov < |ChannelTiles(m, tileSize)| && fov < |BBoxLines(m, tileSize)|
      ensures tiles == old(tiles)[TileKey(dir, fov, name) := ChannelTiles(m, tileSize)[fov]]
      ensures bboxFiles == if channel == 0 then old(bboxFiles)[dir := old(bboxFiles)[dir] + [BBoxLines(m, tileSize)[fov]]]
                           else old(bboxFiles)
    {
      var rows := Offsets(m.w, tileSize);
      var cols := Offsets(m.h, tileSize);
      OffsetsShape(m.w, tileSize);
      OffsetsShape(m.h, tileSize);
      var x, y := rows[i], cols[j];
      var xEnd := if m.w - x < tileSize then m.w else x + tileSize;
      var yEnd := if m.h - y < tileSize then m.h else y + tileSize;
      var tile := CopyTile(m, x, xEnd, y, yEnd);
      assert fov < |ChannelTiles(m, tileSize)| && tile == ChannelTiles(m, tileSize)[fov] by {
        ChannelTilesAt(m, tileSize, i, j);
        ExpectedTileCells(m, x, y, tileSize);
        SquareExt(tile, BlockTile(m, tileSize, i, j), tileSize);
      }
      assert fov < |BBoxLines(m, tileSize)| && BBox(fov, x, xEnd, y, yEnd) == BBoxLines(m, tileSize)[fov] by {
        BBoxLinesAtCell(m, tileSize, i, j);
      }
      tiles := tiles[TileKey(dir, fov, name) := tile];
      if channel == 0 {
        bboxFiles := bboxFiles[dir := bboxFiles[dir] + [BBox(fov, x, xEnd, y, yEnd)]];
      }
    }

    /**
     * One pass of the column loop: the tiles of grid row i are stored and,
     * for channel 0, their bounding-box lines appended, in column order.
     */
    method TileRow(m: Mosaic, channel: nat, name: string, dir: string, i: nat, fov0: nat,
                   ghost all: seq<Tile>, ghost lines: seq<BBox>, ghost t0: map<TileKey, Tile>, ghost b0: map<string, seq<BBox>>)
      returns (fov: nat)
      requires m.Valid() && all == ChannelTiles(m, tileSize) && lines == BBoxLines(m, tileSize)
      requires i < |Offsets(m.w, tileSize)| && fov0 == Fov(i, 0, |Offsets(m.h, tileSize)|)
      requires Progress(tiles, bboxFiles, t0, b0, all, lines, channel, name, dir, fov0)
      modifies this`tiles, this`bboxFiles
      ensures fov == Fov(i + 1, 0, |Offsets(m.h, tileSize)|)
      ensures Progress(tiles, bboxFiles, t0, b0, all, lines, channel, name, dir, fov)
    {
      var cols := Offsets(m.h, tileSize);
      fov := fov0;
      for j := 0 to |cols|
        invariant fov == Fov(i, j, |cols|)
        invariant Progress(tiles, bboxFiles, t0, b0, all, lines, channel, name, dir, fov)
      {
        StoreNext(m, channel, name, dir, i, j, fov, all, lines, t0, b0);
        fov := fov + 1;
      }
      FovShift(i, 0, |cols|, |cols|);
    }

    /** The body of the column loop: the tile of cell (i, j) extends the channel's progress by one fov. */
    method StoreNext(m: Mosaic, channel: nat, name: string, dir: string, i: nat, j: nat, fov: nat,
                     ghost all: seq<Tile>, ghost lines: seq<BBox>, ghost t0: map<TileKey, Tile>, ghost b0: map<string, seq<BBox>>)
      requires m.Valid() && all == ChannelTiles(m, tileSize) && lines == BBoxLines(m, tileSize)
      requires i < |Offsets(m.w, tileSize)| && j < |Offsets(m.h, tileSize)| && fov == Fov(i, j, |Offsets(m.h, tileSize)|)
      requires Progress(tiles, bboxFiles, t0, b0, all, lines, channel, name, dir, fov)
      modifies this`tiles, this`bboxFiles
      ensures fov + 1 == Fov(i, j + 1, |Offsets(m.h, tileSize)|)
      ensures Progress(tiles, bboxFiles, t0, b0, all, lines, channel, name, dir, fov + 1)
    {
      ghost var t, b := tiles, bboxFiles;
      StoreTile(m, channel, name, dir, i, j, fov);
      ProgressStep(t, b, t0, b0, all, lines, channel, name, dir, fov);
      FovShift(i, j, 1, |Offsets(m.h, tileSize)|);
    }

    /**
     * Tiles one channel mosaic: every tile is stored under its fov, counted
     * in row-major order from 0, and for channel 0 one bounding-box line per
     * tile is appended to the directory's tile_metadata.txt.
     */
    method TileChannel(m: Mosaic, channel: nat, name: string, dir: string)
      requires m.Valid() && dir in bboxFiles
      modifies this`tiles, this`bboxFiles
      ensures tiles == old(tiles) + ChannelTileMap(dir, name, m, tileSize)
      ensures bboxFiles == if channel == 0 then old(bboxFiles)[dir := old(bboxFiles)[dir] + BBoxLines(m, tileSize)]
                           else old(bboxFiles)
    {
      var rows := Offsets(m.w, tileSize);
      ghost var cols := Offsets(m.h, tileSize);
      ghost var all, lines := ChannelTiles(m, tileSize), BBoxLines(m, tileSize);
      ProgressStart(tiles, bboxFiles, all, lines, channel, name, dir);
      var fov: nat := 0;
      for i := 0 to |rows|
        invariant fov == Fov(i, 0, |cols|)
        invariant Progress(tiles, bboxFiles, old(tiles), old(bboxFiles), all, lines, channel, name, dir, fov)
      {
        fov := TileRow(m, channel, name, dir, i, fov, all, lines, old(tiles), old(bboxFiles));
      }
      assert |all| == fov == |lines| by {
        TileGridShape(m, tileSize);
        BBoxGridShape(m, tileSize);
        FovClosed(|rows|, 0, |cols|);
      }
      ProgressEnd(tiles, bboxFiles, old(tiles), old(bboxFiles), m, tileSize, channel, name, dir);
    }

    /**
     * The state after tiling channels 0 .. k-1 of czi, starting from tile
     * store t0, bounding-box files b0, grid-shape records m0, flag w0 and
     * n0 records written: the channel tiles are stored, the directory's
     * bounding-box file holds channel 0's lines, and channel 0's grid shape
     * is recorded if the flag was down.
     */
    ghost predicate FileProgress(czi: CziImage, k: nat, t0: map<TileKey, Tile>, b0: map<string, seq<BBox>>,
                                 m0: map<string, GridRecord>, w0: bool, n0: nat)
      reads this
      requires czi.Valid() && k <= |czi.channels| && k <= |channelsToUse|
    {
      var wrote := k > 0 && !w0;
      tiles == t0 + FileTileMap(czi, channelsToUse, tileSize, k) &&
      bboxFiles == b0[Dir(czi.stem) := if k > 0 then BBoxLines(czi.channels[0], tileSize) else []] &&
      written == (w0 || wrote) &&
      breakdownWrites == n0 + (if wrote then 1 else 0) &&
      metadata == if wrote then m0[czi.stem := GridOf(czi.channels[0], tileSize, czi.stem)] else m0
    }

    /**
     * The body of the channel loop: the grid shape is recorded if the flag
     * is down, then channel k is tiled.
     */
    method TileFileChannel(czi: CziImage, k: nat, ghost t0: map<TileKey, Tile>, ghost b0: map<string, seq<BBox>>,
                           ghost m0: map<string, GridRecord>, ghost w0: bool, ghost n0: nat)
      requires czi.Valid() && |czi.channels| == |channelsToUse| && k < |czi.channels|
      requires FileProgress(czi, k, t0, b0, m0, w0, n0)
      modifies this`written, this`metadata, this`breakdownWrites, this`tiles, this`bboxFiles
      ensures FileProgress(czi, k + 1, t0, b0, m0, w0, n0)
    {
      var m := czi.channels[k];
      var rows := Offsets(m.w, tileSize);
      var cols := Offsets(m.h, tileSize);
      if !written {
        WriteTileBreakdown(|rows|, |cols|, czi.stem);
      }
      TileChannel(m, k, channelsToUse[k], Dir(czi.stem));
      assert tiles == t0 + FileTileMap(czi, channelsToUse, tileSize, k + 1) by {
        UnionAssoc(t0, FileTileMap(czi, channelsToUse, tileSize, k), ChannelTileMap(Dir(czi.stem), channelsToUse[k], m, tileSize));
      }
      assert bboxFiles == b0[Dir(czi.stem) := BBoxLines(czi.channels[0], tileSize)] by {
        assert k == 0 ==> [] + BBoxLines(m, tileSize) == BBoxLines(m, tileSize);
      }
    }

    /**
     * Tiles every channel of one CZI file. A channel count that differs from
     * the configured channel names stops the run before anything is written.
     * The grid shape of channel 0 is recorded only while the one-shot flag is
     * still down.
     */
    method TileCziFile(czi: CziImage) returns (ok: bool)
      requires czi.Valid()
      modifies this`written, this`metadata, this`breakdownWrites, this`tiles, this`bboxFiles
      ensures ok <==> |channelsToUse| == |czi.channels|
      ensures tiles == if ok then old(tiles) + FileTileMap(czi, channelsToUse, tileSize, |channelsToUse|)
                       else old(tiles)
      ensures bboxFiles == if ok then old(bboxFiles)[Dir(czi.stem) := FileBBoxes(czi, tileSize)] else old(bboxFiles)
      ensures var wrote := ok && |czi.channels| > 0 && !old(written);
              written == (old(written) || wrote) &&
              breakdownWrites == old(breakdownWrites) + (if wrote then 1 else 0) &&
              metadata == if wrote then old(metadata)[czi.stem := GridOf(czi.channels[0], tileSize, czi.stem)]
                          else old(metadata)
    {
      if |channelsToUse| != |czi.channels| {
        return false;
      }
      ok := true;
      ghost var t0, b0, m0, w0, n0 := tiles, bboxFiles, metadata, written, breakdownWrites;
      bboxFiles := bboxFiles[Dir(czi.stem) := []];
      assert t0 + FileTileMap(czi, channelsToUse, tileSize, 0) == t0;
      for channel := 0 to |czi.channels|
        invariant FileProgress(czi, channel, t0, b0, m0, w0, n0)
      {
        TileFileChannel(czi, channel, t0, b0, m0, w0, n0);
      }
    }

    /** Tiles file k of a run; a channel-count mismatch leaves the stores as they were. */
    method TileNextFile(files: seq<CziImage>, k: nat, ghost t0: map<TileKey, Tile>, ghost b0: map<string, seq<BBox>>)
      returns (ok: bool)
      requires k < |files| && RunState(tiles, bboxFiles, t0, b0, files, channelsToUse, tileSize, k)
      modifies this`written, this`metadata, this`breakdownWrites, this`tiles, this`bboxFiles
      ensures ok <==> |files[k].channels| == |channelsToUse|
      ensures ok ==> RunState(tiles, bboxFiles, t0, b0, files, channelsToUse, tileSize, k + 1)
      ensures !ok ==> tiles == old(tiles) && bboxFiles == old(bboxFiles)
      ensures var wrote := ok && |files[k].channels| > 0 && !old(written);
              written == (old(written) || wrote) &&
              breakdownWrites == old(breakdownWrites) + (if wrote then 1 else 0) &&
              metadata == if wrote then old(metadata)[files[k].stem := GridOf(files[k].channels[0], tileSize, files[k].stem)]
                          else old(metadata)
    {
      ghost var t, b := tiles, bboxFiles;
      ok := TileCziFile(files[k]);
      if ok {
        RunStep(t, b, t0, b0, files, channelsToUse, tileSize, k);
      }
    }

    /**
     * tile_czi_file as written: the files are tiled in order and the first
     * channel-count mismatch ends the run. The one-shot flag is never
     * lowered again, so at most one grid-shape record is written per run:
     * the first file's, and no later file gets one.
     */
    method TileCziFiles(files: seq<CziImage>) returns (done: nat)
      requires forall k :: 0 <= k < |files| ==> files[k].Valid()
      modifies this`written, this`metadata, this`breakdownWrites, this`tiles, this`bboxFiles
      ensures RunState(tiles, bboxFiles, old(tiles), old(bboxFiles), files, channelsToUse, tileSize, done)
      ensures done < |files| ==> |files[done].channels| != |channelsToUse|
      ensures breakdownWrites <= old(breakdownWrites) + 1
      ensures old(written) ==> metadata == old(metadata) && breakdownWrites == old(breakdownWrites)
      ensures !old(written) && done > 0 && |channelsToUse| > 0 ==>
                metadata == old(metadata)[files[0].stem := GridOf(files[0].channels[0], tileSize, files[0].stem)]
      ensures OneShot(metadata, written, breakdownWrites, old(metadata), old(written), old(breakdownWrites),
                      files, channelsToUse, tileSize, done)
    {
      ghost var t0, b0, m0, w0, n0 := tiles, bboxFiles, metadata, written, breakdownWrites;
      RunStart(t0, b0, files, channelsToUse, tileSize);
      done := RunFilesOnce(files, t0, b0, m0, w0, n0);
      OneShotFacts(metadata, written, breakdownWrites, m0, w0, n0, files, channelsToUse, tileSize, done);
    }

    /** The file loop of the as-written run, from the stores and flag it starts with. */
    method RunFilesOnce(files: seq<CziImage>, ghost t0: map<TileKey, Tile>, ghost b0: map<string, seq<BBox>>,
                        ghost m0: map<string, GridRecord>, ghost w0: bool, ghost n0: nat)
      returns (done: nat)
      requires RunState(tiles, bboxFiles, t0, b0, files, channelsToUse, tileSize, 0)
      requires metadata == m0 && written == w0 && breakdownWrites == n0
      modifies this`written, this`metadata, this`breakdownWrites, this`tiles, this`bboxFiles
      ensures RunState(tiles, bboxFiles, t0, b0, files, channelsToUse, tileSize, done)
      ensures OneShot(metadata, written, breakdownWrites, m0, w0, n0, files, channelsToUse, tileSize, done)
      ensures done < |files| ==> |files[done].channels| != |channelsToUse|
    {
      done := 0;
      while done < |files|
        invariant RunState(tiles, bboxFiles, t0, b0, files, channelsToUse, tileSize, done)
        invariant OneShot(metadata, written, breakdownWrites, m0, w0, n0, files, channelsToUse, tileSize, done)
        decreases |files| - done
      {
        var ok := TileNextFileOnce(files, done, t0, b0, m0, w0, n0);
        if !ok {
          return;
        }
        done := done + 1;
      }
    }

    /** The body of the as-written run: tiles file k, the one-shot flag kept from earlier files. */
    method TileNextFileOnce(files: seq<CziImage>, k: nat, ghost t0: map<TileKey, Tile>, ghost b0: map<string, seq<BBox>>,
                            ghost m0: map<string, GridRecord>, ghost w0: bool, ghost n0: nat)
      returns (ok: bool)
      requires k < |files| && RunState(tiles, bboxFiles, t0, b0, files, channelsToUse, tileSize, k)
      requires OneShot(metadata, written, breakdownWrites, m0, w0, n0, files, channelsToUse, tileSize, k)
      modifies this`written, this`metadata, this`breakdownWrites, this`tiles, this`bboxFiles
      ensures ok <==> |files[k].channels| == |channelsToUse|
      ensures ok ==> RunState(tiles, bboxFiles, t0, b0, files, channelsToUse, tileSize, k + 1) &&
                     OneShot(metadata, written, breakdownWrites, m0, w0, n0, files, channelsToUse, tileSize, k + 1)
      ensures !ok ==> RunState(tiles, bboxFiles, t0, b0, files, channelsToUse, tileSize, k) &&
                      OneShot(metadata, written, breakdownWrites, m0, w0, n0, files, channelsToUse, tileSize, k)
    {
      ghost var md, w, n := metadata, written, breakdownWrites;
      ok := TileNextFile(files, k, t0, b0);
      if ok {
        OneShotStep(md, w, n, metadata, written, breakdownWrites, m0, w0, n0, files, channelsToUse, tileSize, k);
      }
    }

    /**
     * tile_czi_file with the one-shot flag lowered for every file, so that
     * every tiled file gets the grid-shape record the stitcher looks up.
     */
    method TileCziFilesPerSource(files: seq<CziImage>) returns (done: nat)
      requires forall k :: 0 <= k < |files| ==> files[k].Valid()
      modifies this`written, this`metadata, this`breakdownWrites, this`tiles, this`bboxFiles
      ensures RunState(tiles, bboxFiles, old(tiles), old(bboxFiles), files, channelsToUse, tileSize, done)
      ensures done < |files| ==> |files[done].channels| != |channelsToUse|
      ensures metadata == old(metadata) + RecordsOf(files, tileSize, done)
      ensures breakdownWrites == old(breakdownWrites) + (if |channelsToUse| > 0 then done else 0)
      ensures done < |files| ==> !written
      ensures 0 < done == |files| ==> (written <==> |channelsToUse| > 0)
      ensures |files| == 0 ==> written == old(written)
    {
      done := 0;
      ghost var t0, b0, m0, w0, n0 := tiles, bboxFiles, metadata, written, breakdownWrites;
      RunStart(t0, b0, files, channelsToUse, tileSize);
      RecordedStart(m0, files, tileSize);
      while done < |files|
        invariant RunState(tiles, bboxFiles, t0, b0, files, channelsToUse, tileSize, done)
        invariant Recorded(metadata, m0, files, tileSize, done)
        invariant SourceFlags(written, breakdownWrites, w0, n0, channelsToUse, done)
        decreases |files| - done
      {
        var ok := TileNextSource(files, done, t0, b0, m0, w0, n0);
        if !ok {
          return;
        }
        done := done + 1;
      }
    }

    /** Lowers the one-shot flag and tiles file k of a run, which then records its own grid shape. */
    method TileNextSource(files: seq<CziImage>, k: nat, ghost t0: map<TileKey, Tile>, ghost b0: map<string, seq<BBox>>,
                          ghost m0: map<string, GridRecord>, ghost w0: bool, ghost n0: nat)
      returns (ok: bool)
      requires k < |files| && RunState(tiles, bboxFiles, t0, b0, files, channelsToUse, tileSize, k)
      requires Recorded(metadata, m0, files, tileSize, k)
      requires SourceFlags(written, breakdownWrites, w0, n0, channelsToUse, k)
      modifies this`written, this`metadata, this`breakdownWrites, this`tiles, this`bboxFiles
      ensures ok <==> |files[k].channels| == |channelsToUse|
      ensures ok ==> RunState(tiles, bboxFiles, t0, b0, files, channelsToUse, tileSize, k + 1) &&
                     Recorded(metadata, m0, files, tileSize, k + 1)
      ensures !ok ==> tiles == old(tiles) && bboxFiles == old(bboxFiles) && metadata == old(metadata)
      ensures written == (ok && |channelsToUse| > 0)
      ensures breakdownWrites == old(breakdownWrites) + (if ok && |channelsToUse| > 0 then 1 else 0)
      ensures ok ==> SourceFlags(written, breakdownWrites, w0, n0, channelsToUse, k + 1)
    {
      written := false;
      ghost var md := metadata;
      ok := TileNextFile(files, k, t0, b0);
      if ok {
        PerSourceStep(md, metadata, m0, files, tileSize, k);
      }
    }
  }

  /**
   * Two one-channel files tiled in one run: as written, only the first gets
   * a grid-shape record; with the flag lowered per file, both do.
   */
  method TwoFileRun() returns (firstAsWritten: bool, secondAsWritten: bool, firstFixed: bool, secondFixed: bool)
    ensures firstAsWritten && !secondAsWritten
    ensures firstFixed && secondFixed
  {
    var m := Mosaic(1, 1, [[7]]);
    var files := [CziImage("a", [m]), CziImage("b", [m])];
    var asWritten := new Tiler(2048, ["DAPI"], map[], map[], map[]);
    var done := asWritten.TileCziFiles(files);
    firstAsWritten, secondAsWritten := "a" in asWritten.metadata, "b" in asWritten.metadata;
    var fixed := new Tiler(2048, ["DAPI"], map[], map[], map[]);
    done := fixed.TileCziFilesPerSource(files);
    firstFixed, secondFixed := "a" in fixed.metadata, "b" in fixed.metadata;
  }
}
